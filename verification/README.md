# Corridor gateway: verified model

A Dafny 4.11 model of the Corridor API gateway's stateful core and of the transformations around
it, with proofs about whole runs. `dafny verify dfyconfig.toml` checks everything.

| file | what it models |
|---|---|
| `SlidingWindow.dfy` | sliding-window admission over a never-pruned history: the reference policy, its bound and its optimality |
| `RateLimiter.dfy` | the rate-limiting plugin object, and runs of requests and sweeps over many clients |
| `LimiterInterleaving.dfy` | the limiter's lock sections as interleaved steps over log objects |
| `Selection.dfy` | target selection by round robin, weights and connection counts, as functions, and what each strategy guarantees |
| `SelectionInterleaving.dfy` | overlapping selections: tickets drawn one at a time, connection counters read one at a time and incremented later |
| `LoadBalancer.dfy` | the four balancers as objects, each `Next` proved against `Selection` |
| `Connections.dfy` | active-connection counting by concurrent requests |
| `HealthChecker.dfy` | the threshold automaton of the health checker |
| `HealthAgreement.dfy` | checker verdicts against balancer flags, as one system |
| `Proxy.dfy` | the proxy object: health pushes, and select, increment, forward |
| `ResponseCache.dfy` | the caching plugin object, its keys, and sequential runs |
| `CacheInterleaving.dfy` | the caching plugin's steps, interleaved |
| `PluginChain.dfy` | the plugin chain, its semantics, and a limiter inside it |
| `ChainInterleaving.dfy` | overlapping requests in a chain with a limiter |
| `Config.dfy` | defaults and validation of the configuration, in place |
| `Router.dfy` | path and host patterns, first-match dispatch, pre-built chains |
| `Options.dfy`, `Text.dfy` | the option type; ASCII case conversion |

## How it is modelled

Time is an integer clock that does not go back (nanoseconds in the limiter). Random numbers, the
outcome of a probe, the upstream's answer, whether a URL parses, whether a plugin initialises and
every clock reading are parameters. A concurrent part is a state machine: a run is any sequence of
events, an event that is not enabled changes nothing, and the theorems hold for all sequences. Fields
named as observers (`histories`, `asked`, `admitted`, `answers`, `stamps`, `delivered`, `top`) record what
happened and influence no other field.

SHA-256 is taken to be injective, so the cache store is keyed by the text that is hashed. The reverse
proxy is taken to call the transport at most once per request. A 32-bit counter wraps explicitly
(`Add32`); other integers are unbounded.

## What the proofs say about the code

Properties that hold:

* The limiter admits exactly what a policy with an unbounded memory would admit, in every run, so it
  never lets more than N requests of a client through in any closed window, even across sweeps, and no
  policy that keeps that bound admits more requests or any of them sooner.
* Under interleaving every log object keeps the bound, and behind a chain of plugins walked by overlapping
  requests the proxy is reached within it, as long as no sweep removes a log in use.
* The interleaved models refine the sequential ones: steps of one request that nothing interrupts are the
  plugin, the scan or the walk through the chain taken at once.
* Health, connection counts and cache hits are characterised by the whole history that led to them.

Where the code does less than its comments or the gateway's own documentation say, the model follows
the code, gives a concrete input and proves the exact condition:

* A sweep can evict a log that a handler has fetched and not yet locked. The per-client bound survives
  an eviction if and only if nobody holds the evicted log (`EvictionIsSafeIff`);
  `HeldEvictionIsReachable` is a run with two admissions at one instant under a limit of one.
* A round-robin scan finds a healthy target whenever there is one if and only if the ticket counter
  does not wrap during the scan or the number of targets divides 2^32 (`ScanIsCompleteIff`).
* Overlapping round-robin calls take each other's tickets, so one of them can fail although a target is
  healthy. From every counter, no interleaving does that if and only if the pool does not mix healthy and
  unhealthy targets (`OverlappingScansCompleteIff`).
* A least-connections call reads the counters one target at a time while other requests increment them,
  and its own increment comes later. With at most m requests between entering `Next` and their increment
  and two or more healthy targets, the spread of connections stays within d if and only if it is within d
  at the start and d >= m (`OverlapSpreadIff`).
* The balancer's flags follow the health checker if and only if the strategy is round robin or random
  and the configured URL of each of its targets is first rendered by that target (`AgreementIff`). The
  documentation promises removal of unhealthy instances for every strategy; weighted and least-connections
  balancers never learn of one (`UnpushedFlagsStayTrue`).
* The cache key joins method, host and URI with ':', so two requests can share one: with `Host: a:b`, `GET /c`
  has the key of `GET x:b:/c` with `Host: a` (`RawKeyCanCollide`), whose URI is the opaque "b:/c", and can be
  served its answer (`SharedKeyHit`). A client's hits are always for its own host and URI if and only if the
  host has no ':' and no ':' of the URI but its last character comes before the first '/' (`HitsAreOwnIff`);
  for a URI that starts with '/', if and only if the host names no port (`UsualFormIsOwnIff`).
* A fresh entry can be lost when requests overlap: a slow handler that found the old entry expired deletes
  the new one (`StaleDeleteLosesFresh`), or stores an older answer over it (`OlderStoreHidesNewer`). A lookup
  within an entry's lifetime misses if and only if the last write or delete of the key since was such a one
  (`FreshIsMissedIff`).
* A client that waits exactly the `Retry-After` value can be refused again; it is admitted if and only
  if the limit was not used up at the instant of the refusal (`RetryAfterWindow`).
* The log line for a route whose plugin cannot be built says that the route is skipped; the route is
  served without any of its plugins (`Dispatched`); `ServedUnguarded` is such a request.
* A request whose reverse proxy gives up before the transport is called keeps its target's connection
  counter raised forever (`AbandonedLeaks`). `net/http/httputil` gives up so on a request whose `Upgrade`
  header names a protocol with unprintable characters (`AbandonIsReachable`).
* One pass of the configuration defaults need not settle a configuration (`OnePassIsNotEnough`); two do
  (`PassesSettle`), and one does if and only if no service has an `upstream_url` and no load-balancing
  block (`OnePassIsEnoughIff`).

## Model

| member | source | states |
|---|---|---|
| SlidingWindow.PruneSuffix | app/plugins/ratelimiting.go:170-182 | pruning a sorted log keeps exactly its suffix of stamps no older than the window |
| SlidingWindow.GreedyKeepsLimit | app/plugins/ratelimiting.go:165-212 | the reference policy admits at most `limit` stamps in every closed interval of length `window`, in order |
| SlidingWindow.GreedyIsOptimal | app/plugins/ratelimiting.go:165-212 | any subsequence of the arrivals that keeps the bound is no longer, and its i-th stamp is no earlier, than the reference policy's |
| SlidingWindow.GreedyErase | app/plugins/ratelimiting.go:187-204 | leaving out a rejected arrival changes the fate of no other arrival |
| SlidingWindow.DecideTracks | app/plugins/ratelimiting.go:170-211 | a log that answers all later queries as the full history does still does so after a decision, and decides as the history would |
| SlidingWindow.ForgetTracks | app/plugins/ratelimiting.go:253-256 | a log whose newest stamp has left the window can be replaced by no log |
| RateLimiter.SettingsAreEnforced | app/plugins/ratelimiting.go:57-90 | with n requests per minute, or else n per second, or else 60 per minute, every run admits at most n of a client in any 60 s, 1 s or 60 s, exactly the first n of a new client's simultaneous requests are admitted, and Retry-After is 60 or 1 |
| RateLimiter.BurstIsCut | app/plugins/ratelimiting.go:187-204 | for any limits: of a new client's simultaneous requests exactly the first N are admitted, after any run of other clients and sweeps |
| RateLimiter.RateLimitingPlugin.GetOrCreate | app/plugins/ratelimiting.go:146-162 | returns the client's one log object; a new client gets a fresh empty one and nothing else changes |
| RateLimiter.RateLimitingPlugin.Check | app/plugins/ratelimiting.go:164-212 | the prune loop, the decision and the append leave the log as the specification says and answer as it does |
| RateLimiter.RateLimitingPlugin.Handle | app/plugins/ratelimiting.go:112-223 | the reply (refusal codes, limit, remaining, retry-after) and the whole new store, with nothing changed on the error replies |
| RateLimiter.RateLimitingPlugin.Cleanup | app/plugins/ratelimiting.go:238-261 | the store loses exactly the idle clients, and no log changes |
| RateLimiter.RunRefinesGreedy | app/plugins/ratelimiting.go:146-261 | in every run of requests and sweeps over many clients, a client's admissions are those of the reference policy on its own arrivals |
| RateLimiter.RunIsWithinLimit | app/plugins/ratelimiting.go:146-261 | window safety over every run, across deletion and re-creation of logs; no stored log exceeds the limit |
| RateLimiter.RunIsOptimal | app/plugins/ratelimiting.go:165-212 | in every run no policy keeping the bound admits more of the client's requests, or any sooner |
| RateLimiter.RejectedCanBeErased | app/plugins/ratelimiting.go:187-204 | erasing a rejected request from a run leaves every client's admissions as they were |
| RateLimiter.RetryAfterWindow | app/plugins/ratelimiting.go:187-200 | after a rejection a request more than a window later is admitted; exactly a window later, iff the limit was not used up at that instant |
| RateLimiter.RetryAtExactlyTheWindowCanFail | app/plugins/ratelimiting.go:175-199 | a run in which the retry named by the header is refused |
| RateLimiter.RemainingIsExact | app/plugins/ratelimiting.go:217-219 | after a request the log's length is the client's number of admissions in the window, so the remaining-requests header is exact |
| RateLimiter.SweepKeepsExactlyTheActive | app/plugins/ratelimiting.go:233-261 | after a sweep the store has a client iff it was admitted within the last ten windows |
| LimiterInterleaving.StepKeepsInv | app/plugins/ratelimiting.go:146-261 | each step keeps every log object sorted, short, within its bound, and faithful to its own history |
| LimiterInterleaving.EveryLogObjectIsSafe | app/plugins/ratelimiting.go:146-261 | in every interleaving each log object ever created admits at most N per closed window |
| LimiterInterleaving.StepKeepsShared | app/plugins/ratelimiting.go:147-212 | a step that evicts no held log keeps every handler of a client on the store's one object |
| LimiterInterleaving.ClientsAreWithinLimit | app/plugins/ratelimiting.go:147-212 | without such evictions each client's decisions are the reference policy's in locking order, and the per-client bound holds |
| LimiterInterleaving.OrphanBreaksLimit | app/plugins/ratelimiting.go:147-165 | from any reachable state with a handler on an orphaned log, a continuation exceeds the per-client bound |
| LimiterInterleaving.EvictionIsSafeIff | app/plugins/ratelimiting.go:240-261 | after an undisturbed run an eviction keeps the per-client bound in every undisturbed continuation iff no handler holds the evicted log |
| LimiterInterleaving.HeldEvictionIsReachable | app/plugins/ratelimiting.go:147-259 | a run from the start, undisturbed until an idle log is evicted while a handler holds it, after which two requests are admitted at one instant under a limit of one |
| LimiterInterleaving.RequestAlone | app/plugins/ratelimiting.go:147-212 | the lock sections of one request with nothing in between are the sequential plugin: the same contents afterwards and the same decision |
| LimiterInterleaving.SweepAlone | app/plugins/ratelimiting.go:240-261 | evicting the clients one by one removes exactly the idle ones and is the sequential sweep |
| Selection.FirstHealthyTicket | app/proxy/loadbalancer.go:173-183 | the ticket returned finds a healthy target and no earlier ticket does |
| Selection.ScanIsCompleteIff | app/proxy/loadbalancer.go:173-183 | the scan finds a healthy target for every health vector that has one, iff the counter does not wrap or n divides 2^32 |
| Selection.WrapSkipsTarget | app/proxy/loadbalancer.go:176-177 | three targets, counter 2^32-1: the only healthy target is missed |
| Selection.WeightedProportions | app/proxy/loadbalancer.go:285-313 | each healthy target is returned for exactly `weight` of the random numbers below the total, an unhealthy one for none |
| Selection.WeightedFallbacksUnreachable | app/proxy/loadbalancer.go:298-319 | with positive weights and a healthy target neither fallback is reached |
| Selection.ChoiceProportions | app/proxy/loadbalancer.go:276-321 | the answer `Next` is proved to give depends on one number below the total weight, and is a healthy target for exactly `weight` of those numbers, an unhealthy one for none |
| Selection.RandomIsUniform | app/proxy/loadbalancer.go:219-242 | the random answer depends on one number below the number of healthy targets, and is each of them for exactly one |
| Selection.LeastLoaded | app/proxy/loadbalancer.go:365-385 | the result is the leftmost healthy target with the fewest connections, and is missing only if none is healthy |
| Selection.ArrivalKeepsSpread | app/proxy/loadbalancer.go:370-389 | an arrival never raises the spread of connections above the larger of its old value and 1 |
| Selection.StrategiesAgree | app/proxy/loadbalancer.go:164-184 | from fresh balancers both strategies send request k to target k mod n, and every count is floor or ceiling of k/n |
| Selection.StrategiesAgreeForeverIff | app/proxy/loadbalancer.go:176-177 | they agree on all requests, past the wrap too, iff n divides 2^32 |
| SelectionInterleaving.DrawOnlyUnhealthy | app/proxy/loadbalancer.go:173-183 | whatever the state, other calls can leave a call only tickets of a given unhealthy target until it gives up |
| SelectionInterleaving.LoneCallIsScan | app/proxy/loadbalancer.go:164-184 | a call whose tickets are drawn without interruption gives the target, or failure, and the counter of the atomic scan |
| SelectionInterleaving.OverlappingScansCompleteIff | app/proxy/loadbalancer.go:173-183 | for every health vector and counter: no interleaving fails a call while a target is healthy, iff the vector does not mix healthy and unhealthy |
| SelectionInterleaving.OverlappingScansSizeIff | app/proxy/loadbalancer.go:173-183 | n targets are safe under every health vector iff n is at most 1 |
| SelectionInterleaving.MoveKeepsOk | app/proxy/loadbalancer.go:370-380 | an arrival, one read or an increment keeps the invariant: no healthy target is below a count another request still acts on, and what a target gained since it passed w, with all still leaning to it on a reading of at most w, is at most m |
| SelectionInterleaving.UninterruptedScan | app/proxy/loadbalancer.go:365-389 | the reads of one call with no step in between choose the leftmost least-loaded healthy target |
| SelectionInterleaving.OverlapKeepsSpread | app/proxy/loadbalancer.go:356-389 | with at most m requests between entering `Next` and their increment no interleaving of reads and increments raises the spread above the larger of its old value and m |
| SelectionInterleaving.OverlapSpreadIff | app/proxy/loadbalancer.go:356-389 | for every pool and all initial counts a spread of d holds in every such interleaving iff it holds at the start and d >= m or fewer than two targets are healthy |
| SelectionInterleaving.LevelUp | app/proxy/loadbalancer.go:370-389 | from any counts requests one at a time bring all healthy targets level |
| LoadBalancer.RoundRobinLoadBalancer.Next | app/proxy/loadbalancer.go:164-184 | the target and the new counter of the scan; nothing else changes |
| LoadBalancer.FilterHealthy | app/proxy/loadbalancer.go:285-292 | the healthy targets in order and the sum of their weights |
| LoadBalancer.RandomLoadBalancer.Next | app/proxy/loadbalancer.go:219-242 | the healthy target at the random position, or none |
| LoadBalancer.PickByWeight | app/proxy/loadbalancer.go:306-319 | the first target whose cumulative weight exceeds the random number |
| LoadBalancer.WeightedRandomLoadBalancer.Next | app/proxy/loadbalancer.go:276-321 | the weighted pick for the random number drawn, with both fallbacks |
| LoadBalancer.LeastConnectionsLoadBalancer.Next | app/proxy/loadbalancer.go:356-389 | the leftmost least-loaded healthy target, or none |
| LoadBalancer.NewLoadBalancer | app/proxy/loadbalancer.go:77-140 | the parsable targets in order, healthy and idle; weight defaulting; strategy choice; failure iff nothing parses |
| LoadBalancer.ParsableAreAll | app/proxy/loadbalancer.go:85-99 | every configured target that parses is there, no other, in the configured order |
| Connections.ConnectionsConserved | app/proxy/proxy.go:271-274 | in every interleaving each counter is the number of its requests incremented and not returned; all are zero iff every forwarded request returned |
| Connections.StepConserves | app/proxy/proxy.go:370-381 | every select, increment, round-trip and abandon step keeps that equality |
| Connections.AbandonedLeaks | app/proxy/proxy.go:271-275 | a request that never reached the transport keeps its counter at 1 or more for ever |
| Connections.AbandonIsReachable | app/proxy/proxy.go:271-275 | a run with such a request: counted, and never given back |
| Connections.OneRequest | app/proxy/proxy.go:271-274 | from any state a request raises its target's counter by one while it is forwarded and leaves every counter as it was |
| Connections.AtRestOnlyLeaksRemain | app/proxy/proxy.go:370-381 | every reachable state can be brought to rest, and then each counter is the number of its abandoned requests |
| HealthChecker.TargetStatus.ProcessCheckResult | app/healthchecker/healthchecker.go:256-283 | the new counters and verdict, and a notification exactly when the verdict flips |
| HealthChecker.HealthByHistory | app/healthchecker/healthchecker.go:256-283 | unhealthy iff the most recent streak of U failures or H successes is one of failures |
| HealthChecker.FlipBudget | app/healthchecker/healthchecker.go:258-282 | notifications alternate; D downs and P ups need at least D*U + P*H checks; D - P is 0 or 1 |
| HealthAgreement.AgreementIff | app/proxy/proxy.go:333-359 | the flags of the balancer's targets equal the verdicts after every run of probes iff it has no target, or pushes are accepted and the URL of each of its targets addresses that target; a target whose URL does not parse is dropped by the balancer and has no probe results |
| HealthAgreement.PushOnPresent | app/proxy/loadbalancer.go:85-99 | a push on the configured list, then dropping the unparsable targets, is the push on the balancer's own shorter list |
| HealthAgreement.PresentAreAll | app/proxy/loadbalancer.go:85-99 | that shorter list has every parsable target, no other, in order |
| HealthAgreement.DistinctCanonicalIsAddressable | app/proxy/proxy.go:337-343 | distinct URLs that parsing leaves unchanged address their own targets |
| HealthAgreement.SelectionAvoidsUnhealthy | app/healthchecker/healthchecker.go:280-282 | then the balancer's own flags are the verdicts of its targets, and round robin and random never return a target the checker holds unhealthy |
| HealthAgreement.UnpushedFlagsStayTrue | app/proxy/proxy.go:357-359 | weighted and least-connections flags are true in every reachable state |
| Proxy.PushToTargets | app/proxy/proxy.go:337-343 | only the first target with the URL gets the new health |
| Proxy.Proxy.UpdateTargetHealth | app/proxy/proxy.go:316-361 | the flags of the named service's pool after a push, for every strategy and for an unknown service |
| Proxy.Chosen | app/proxy/proxy.go:153-163 | whatever the strategy, a chosen position is one of the pool's and healthy; for least connections the leftmost least-loaded healthy one, for round robin that of the first ticket to find a healthy one, or none if no ticket does; for the others none iff no target is healthy |
| Proxy.Select | app/proxy/proxy.go:153-163 | the target the strategy chooses in the old state, and the scan's new round-robin counter |
| Proxy.Forward | app/proxy/proxy.go:153-275 | selection, increment and decrement: the target and counter as above, and every connection count as before except for a missing round trip |
| Proxy.Proxy.ServeHTTP | app/proxy/proxy.go:129-277 | 500 iff there is no route information; 502 iff the service is unknown; else 503 iff the strategy chooses nothing, which apart from round robin is iff no target is healthy, and otherwise forwarded to the target at the chosen position; only that target's connection count can change, by one, iff the transport is not called; the scan's new round-robin counter |
| Proxy.AgreementByStrategy | app/proxy/proxy.go:333-359 | for a balancer of any type flags follow verdicts iff it has no target, or it is neither weighted nor least-connections and its targets are addressed by their URLs |
| Proxy.RecordProbe | app/healthchecker/healthchecker.go:256-283 | a probe result updates the verdict and pushes it into the pool exactly when it flips |
| ResponseCache.RawKeyInjective | app/plugins/caching.go:91-101 | two requests with equal keys agree in method, host and URI when neither host has a '/' and both URIs start with one |
| ResponseCache.KeyIsOwnIff | app/plugins/caching.go:91-101 | every request a server can hand over with this request's key has its host and URI, iff the host has no ':' and no ':' of the URI but its last character comes before the first '/' |
| ResponseCache.UsualFormIsOwnIff | app/plugins/caching.go:91-101 | for a URI that starts with '/', iff the host has no ':' |
| ResponseCache.RawKeyCanCollide | app/plugins/caching.go:94-94 | two different requests a server can hand over with one key |
| ResponseCache.CachingPlugin.Handle | app/plugins/caching.go:106-220 | the reply and the whole new store for bypass, hit, stale, miss, uncacheable and oversized answers |
| ResponseCache.CachingPlugin.CleanupExpiredEntries | app/plugins/caching.go:234-243 | the store loses exactly the entries expired at the clock reading taken for each |
| ResponseCache.FetchBound | app/plugins/caching.go:117-212 | stores for one key are more than ttl apart, so a span T holds at most floor(T/ttl)+1 of them |
| ResponseCache.StatusTellsTheTruth | app/plugins/caching.go:108-160 | in every sequential run the reply to a GET has the status header HIT if the newest stored response for its key is alive, else MISS; any other request gets the upstream's answer unchanged |
| ResponseCache.RepeatIsServedFromCache | app/plugins/caching.go:117-212 | after a cacheable miss every GET with the same key within the lifetime is a hit with that answer |
| ResponseCache.CacheIsTransparent | app/plugins/caching.go:117-212 | with an upstream that is a function of the key, each reply has the uncached content |
| ResponseCache.CleanupKeepsExactlyTheLive | app/plugins/caching.go:225-255 | after cleanup a key is present iff its newest stored response is alive when cleanup looks at it |
| ResponseCache.CleanupIsInvisible | app/plugins/caching.go:225-255 | leaving cleanups out of a run changes no later reply |
| CacheInterleaving.StepKeepsInv | app/plugins/caching.go:106-255 | each step keeps every entry, held or stored, traceable to a stamped upstream answer for its key |
| CacheInterleaving.HitsHaveProvenance | app/plugins/caching.go:115-220 | in every interleaving a hit at t answers a GET and has the content of a 200 answer of at most 1 MiB to a GET with the same key, stamped for storing at s with s <= t <= s + ttl; it was for the same host and URI if both URIs start with '/', or if the hit's own address is unambiguous |
| CacheInterleaving.SharedKeyHit | app/plugins/caching.go:94-143 | a run in which a request is served the answer to another one with its key |
| CacheInterleaving.HitsAreOwnIff | app/plugins/caching.go:91-220 | in every interleaving every hit of a request is an answer for its own host and URI, iff its address is unambiguous |
| CacheInterleaving.LookupHitsIff | app/plugins/caching.go:117-212 | in every interleaving the store has a live entry for a GET iff the last store under its key that no stale delete undid is within its lifetime |
| CacheInterleaving.LookupDelivers | app/plugins/caching.go:117-143 | a GET looked up after any run and tested after any further steps is delivered exactly one response, a HIT with the entry found, iff that entry is within its lifetime at the test, and otherwise nothing |
| CacheInterleaving.AloneIsSequential | app/plugins/caching.go:106-220 | the steps of one handler with nothing in between are the sequential plugin, from any state: the same reply, marked hit or not, and the same store |
| CacheInterleaving.CleanAllCleans | app/plugins/caching.go:234-243 | cleaning keys one by one removes exactly the expired entries among them and is the sequential cleanup |
| CacheInterleaving.FreshIsMissedIff | app/plugins/caching.go:117-212 | a GET within the lifetime of a store gets no hit iff the last step since to write or delete the key was a stale delete, or the store of an entry that has expired |
| CacheInterleaving.StaleDeleteLosesFresh | app/plugins/caching.go:146-153 | a run in which a slow handler's stale delete removes the answer just stored |
| CacheInterleaving.OlderStoreHidesNewer | app/plugins/caching.go:202-211 | a run in which an older answer is stored over a newer one, and a lookup within the newer one's lifetime misses |
| CacheInterleaving.EveryDeliveryIsTransparent | app/plugins/caching.go:106-255 | in every interleaving over an upstream that is a function of the key, every delivered response has its content |
| PluginChain.ChainPlugins | app/plugins/plugin.go:68-84 | the handler wraps the proxy in the plugins in configuration order |
| PluginChain.ChainRunsInOrder | app/plugins/plugin.go:64-84 | plugins run in order up to the first that does not call on, on the state their predecessors left; the proxy runs iff all call on |
| PluginChain.LimiterInChain | app/plugins/ratelimiting.go:187-221 | a request moves a limiter's store iff it gets there, and reaches the proxy only if the limiter allowed it |
| PluginChain.ReachedIffAllowed | app/plugins/ratelimiting.go:187-221 | among plugins that call on, a request reaches the proxy iff the limiter allows it |
| PluginChain.ProxySeesThePolicy | app/plugins/ratelimiting.go:187-221 | in every run in which the other plugins call on, a client's requests that reach the proxy are exactly those the reference policy admits |
| PluginChain.ProxyIsRateLimited | app/plugins/ratelimiting.go:187-221 | with a limiter anywhere in a chain, requests passing one at a time, the proxy is reached at most N times per client and closed window |
| ChainInterleaving.StepKeepsCount | app/plugins/plugin.go:68-84 | each step of overlapping requests keeps those the limiter let through equal in number to its admissions, per client and window |
| ChainInterleaving.OverlappingRequestsAreLimited | app/plugins/ratelimiting.go:146-221 | in every interleaving of requests, other plugins' decisions and sweeps of unheld logs, the proxy is reached at most N times per client and closed window of admission times, and exactly as often as the reference policy admits once all that were let through have arrived |
| ChainInterleaving.LoneRequestReachesIff | app/plugins/plugin.go:68-84 | a request walking the chain alone, the other plugins calling on, reaches the proxy iff the limiter's contents allow it |
| ChainInterleaving.PluginStops | app/plugins/plugin.go:68-84 | a plugin before the limiter that answers keeps the request from it, and one behind it from the proxy |
| ChainInterleaving.EveryLimiterRunOccurs | app/plugins/ratelimiting.go:146-261 | every interleaving of the limiter's lock sections is one of requests walking a chain |
| ChainInterleaving.DisturbedSweepLetsTwoThrough | app/plugins/ratelimiting.go:240-261 | a run in which a sweep of a log in use lets two requests reach the proxy at one instant under one per second |
| Config.Configuration.PopulateTargets | app/config/config.go:189-220 | upstream_url or upstream_urls of one service become its targets; no other service changes |
| Config.Configuration.CheckBlock | app/config/config.go:222-271 | the checks and defaults of a load-balancing block, error by error |
| Config.Configuration.SetServiceDefaults | app/config/config.go:182-272 | one service rewritten or its first error, the others untouched |
| Config.Configuration.SetAllServiceDefaults | app/config/config.go:172-273 | all services rewritten in order, or the first error; the set of names |
| Config.Configuration.CheckAllCertificates | app/config/config.go:154-168 | the first incomplete certificate, if any |
| Config.Configuration.CheckAllRoutes | app/config/config.go:275-301 | the first route error, if any |
| Config.Configuration.ValidateAndSetDefaults | app/config/config.go:134-308 | the whole new configuration, or the first error |
| Config.ServiceAcceptedIff | app/config/config.go:182-271 | a service passes iff it is acceptable; the empty-targets error cannot occur |
| Config.ServiceErrorIff | app/config/config.go:182-271 | each error of a service, iff what the file says of it meets that error's condition |
| Config.RouteErrorIff | app/config/config.go:279-300 | each error of a route, iff its condition is the first of five to hold |
| Config.FirstErrorWins | app/config/config.go:134-308 | the error reported is the first in the order certificates, services, routes |
| Config.AcceptedIff | app/config/config.go:134-308 | a configuration passes iff it meets a declarative condition |
| Config.NormalisedIsReady | app/config/config.go:134-308 | after a pass names are unique, every service has targets and positive probe settings, every route resolves; targets, strategy and health checks of each service, certificates, routes and global settings are kept, with the defaults 30, 5, 2, 1, 8080, info and 5000 where the file sets nothing |
| Config.RoutesReachTargets | app/config/config.go:134-308 | a route's service is the one of that name, has targets and positive probe settings, so the downstream lookups cannot fail |
| Config.ThresholdsAreValid | app/config/config.go:249-263 | the thresholds after a pass are those the health checker needs |
| Config.PassesSettle | app/config/config.go:134-308 | a second pass succeeds and a third changes nothing |
| Config.OnePassIsEnoughIff | app/config/config.go:190-222 | a second pass changes nothing iff no service has an `upstream_url` and no load-balancing block |
| Config.FirstPassSettlesServiceIff | app/config/config.go:190-222 | the same for one service |
| Config.OnePassIsNotEnough | app/config/config.go:190-199 | a service that the second pass still changes |
| Router.WildcardMatchesSegments | app/router/router.go:243-266 | a trailing slash-star matches iff the '/'-segments before it begin the path's segments |
| Router.OtherPatterns | app/router/router.go:253-264 | a bare trailing star is a prefix match, any other pattern an exact one |
| Router.WildcardMatchesSubdomains | app/router/router.go:136-150 | "*.base" matches iff base's labels are a proper suffix of the host name's labels |
| Router.HostnameIs | app/router/router.go:136-139 | the host name has no ':' and is the whole host or is followed by one in it |
| Router.ExactHost | app/router/router.go:134-165 | an empty pattern matches every host; one without wildcard matches the host it names, with any port or none, and one that names a port matches nothing |
| Router.EqualFoldIff | app/router/router.go:174-174 | method names are equal iff they agree letter by letter up to case |
| Router.Router.BuildRouteHandlers | app/router/router.go:67-113 | with unique ids each route has its own chain in order iff all its plugins initialise |
| Router.Router.ServeHTTP | app/router/router.go:117-237 | the lowest-index matching route whose service exists, with its chain or the bare proxy; not found iff there is none |
| Router.Router.MethodMatches | app/router/router.go:169-185 | no methods, or one equal up to case |
| Router.Router.PathMatches | app/router/router.go:188-199 | some pattern matches |
| Router.Dispatched | app/router/router.go:129-237 | on an accepted configuration the lowest-index route matching host, method and path is served with its plugins, and 404 iff none matches |
| Router.ServedUnguarded | app/router/router.go:67-113 | on a route whose only plugin cannot be built a request goes straight to the proxy |

## Left out

- Authentication, path rewriting, request ids, key generation, logging, TLS loading and server start-up are not modelled: they are library calls or single branches.
- HTTP transport settings, the reverse proxy's Director, header rewriting and path joining are not modelled.
- SelectionInterleaving.OverlapKeepsSpread: arrivals only, because completions on one target raise the spread whatever is selected; the counting of completions is in `Connections`.
- SelectionInterleaving.OverlappingScansCompleteIff: health does not change while calls overlap, because a flag that moves during a scan leaves no fixed set of healthy targets to find.
- Proxy.Proxy.ServeHTTP: one request at a time; overlapping requests are the subject of `SelectionInterleaving` and `Connections`.
- PluginChain.ProxyIsRateLimited: one request at a time; overlapping requests are the subject of `ChainInterleaving`.
- Reads of a log's length after its lock is released (the remaining-requests header) are taken at the decision.
- What an HTTP server hands over is taken to be any method without ':', any host without '/' and any URI that is not empty; other limits on the characters of a host are not modelled.
- LoadBalancer.NewLoadBalancer: lower-cases ASCII letters only, and whether a URL parses is a parameter.
- Router.Router.MethodMatches: folds the case of ASCII letters only.
- Replacing a balancer's target list (`UpdateTargets`) is not modelled.
- Overflow of the weight total and of the 64-bit connection counters is not modelled.
- ResponseCache.CachingPlugin.Handle: the response writer starts without headers of earlier plugins, and writes to the client succeed.
- Config.Configuration.ValidateAndSetDefaults: does not say what a configuration looks like after an error, because the loader then drops it.
- Reading and decoding the YAML file is not modelled.
