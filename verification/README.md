# Verified model of the Dexalot SDK's reliability layer and order arithmetic

This Dafny 4.11 project models the stateful components under the Dexalot TypeScript SDK that
decide whether its calls are safe: nonce sequencing, provider failover, retries, the WebSocket
connection, caches and shared fetches, rate limiting, the ERC20 worker pool and paged reads. It
also models the exact decimal arithmetic that takes an order to wei, the order-id encoder and the
chain-alias resolver. `dafny verify dfyconfig.toml` checks everything.

## How the code is modelled

- JavaScript runs one piece of code at a time, from one `await` to the next. Each such piece is
  one action of a state machine, and a run is any sequence of actions, so a lemma about every
  sequence speaks of every interleaving. An action that cannot happen leaves the state alone.
- A class of the SDK is a Dafny class with the same fields. Its methods are the pieces of code;
  each method's `ensures` ties the new fields to a function of the old ones (`Abs() ==
  Step(old(Abs()), ...)`), and the lemmas are about those functions and their runs.
- Clocks, random draws, network answers and thrown errors are parameters or actions. Nothing is
  assumed about them beyond what a lemma's `requires` says.
- Amounts are reals. `Big` products and roundings are exact; only `div` rounds, to 20 places.

| module | what it models |
|---|---|
| `NonceManager` | the promise-chain lock and the nonce cache |
| `Providers`, `Failover` | provider health, one `withRpcFailover` call |
| `FailoverRuns`, `FailoverInterleaved` | calls one after another, calls that overlap |
| `Backoff`, `Retry` | exponential backoff, `asyncRetry` |
| `WebSocketManager` | connection states, timers, socket handlers, resubscription |
| `WebSocketTimers` | the same under a clock |
| `MemoryCache`, `SingleFlight` | the TTL cache, `withInstanceCache` |
| `RateLimiter` | the slot cursor |
| `Decimal`, `Orders` | wei conversion, display precision, order normalisation |
| `WorkerPool`, `ChainBalances` | the ERC20 sweep, the sweep inside a failover call |
| `Paging` | batched portfolio pages |
| `OrderId`, `ChainAlias` | 32-byte order ids, chain references |
| `Common`, `Reals`, `Text` | shared types, repeated addition, strings |

## What turned out conditional

Properties the code does not have on all inputs are stated with the exact condition:

- A connection that has answered its pings can be dropped for a missing pong exactly when a ping
  can go out before the previous one's timeout is over, that is, unless `pingTimeout` is below
  `pingInterval` (or equal to it, where timers due together fire in the order they were armed).
  Configuration validation leaves their relation free; the defaults, 10 and 30 seconds, are safe
  (`StrayPongDropsConnectionExactly`).
- A throwing constructor in an explicit `connect()` breaks the life cycle exactly when a reconnect
  is already scheduled (`ThrowingConnectKeepsInvExactly`). It leaves two reconnect timers running if
  attempts remain, which is reachable unless a single attempt is allowed (`LeakReachableExactly`),
  and otherwise gives up with a timer that still connects (`GivenUpStillConnects`). In the reconnect
  timer's own `connect()` it breaks nothing (`ThrowingReconnectKeepsInv`). A throwing ping keeps the
  socket, whose later close takes the next connection down (`OldSocketTakesNewDown`).
- `disconnect()` silences a socket that is still opening but does not close it
  (`DisconnectClosesOpenSocketOnly`).
- Eviction goes by insertion, not by last write: a key written a moment ago is lost to the next
  key that comes in exactly when the keys inserted after it already fill the cap
  (`RewrittenEntryEvictedExactly`). Rewriting stored keys evicts nothing (`EvictedExactly`).
- The comment on `withInstanceCache` promises one run per key and fetch window. A `clear()` breaks
  that exactly when the pending map holds the key (`ClearBreaksExactly`), which includes the time
  between the fetch settling and its owner's `finally` block. And it lets a value fetched before it
  back into the store exactly when a fetch of the key was running (`ClearLetsThroughExactly`).
- Resets of the rate limiter keep the spacing exactly if the next caller, however many resets
  later, does not come before the cursor the last one left (`ResetKeepsSpacingExactly`).
- A positive amount without a price becomes an order for nothing exactly when it is within 1e-10
  of zero and at most half a displayed unit (`PositiveAmountBecomesZeroExactly`). With a price the
  amount or the price becomes zero just so, unless a lower bound is set
  (`PricedOrderBecomesZeroExactly`). An accepted order arrives in full exactly when the token's
  decimals hold its displayed digits (`TruncatesExactly`).
- `toWei(fromWei(w, d), d)` is `w` up to 20 decimals, and beyond exactly when the digits that
  the division drops are zero (`RoundTripExactly`).
- The choice of a token's address stands outside the sweep's `try` and throws for a row without
  environment (`ChoiceThrowsExactly`). Each throw ends one worker, so that a usable token is reported
  exactly when fewer choices throw before it than there are workers, and lost otherwise
  (`ReportedExactly`). The sweep then rejects, the call fails over, and what the workers reach is
  reported once per attempt (`ReportedPerAttempt`), that is, more than once exactly when the chain
  has several providers and one can be picked after the first failure (`DuplicatesExactly`).
- Batched page reads end as reading one by one does, thrown errors included, except exactly when
  reading one by one stops at an empty page and a later page of the same batch throws
  (`BatchesDifferExactly`).
- Plain order ids collide exactly when they agree up to lone surrogates and NULs at the end
  (`PlainIdsCollideExactly`), and ids of any two forms exactly when they stand for one number
  (`IdsCollideExactly`). 64 decimal digits are a decimal order id, not a hex one
  (`BareDigitsAreDecimal`).
- A negative number resolves as the chain id of its absolute value (`IdResolves`). Two configured
  chains with one id resolve by configuration order (`SharedIdGoesToFirst`). A chain whose name has
  a word of a family tried earlier is not put into its own, Sepolia networks being the case at hand
  (`FamilyOfKnownIdExactly`, `SepoliaLeavesFamily`).
- The repository's README calls the rate limiter a token bucket; the code keeps a slot cursor
  without burst credit, and that is what is modelled. The comment on `toWei` says floor where
  the code truncates toward zero, which `WeiOdd` states.

## Model

| member | source | states |
|---|---|---|
| NonceManager.MutualExclusion | src/utils/nonceManager.ts:39-62 | in every interleaving at most one caller per key is between lock grant and release |
| NonceManager.GrantsInCallOrder | src/utils/nonceManager.ts:39-62 | locks are granted in the order of the `acquireLock` calls |
| NonceManager.LocksTrackUnreleased | src/utils/nonceManager.ts:39-62 | the `locks` map has a key exactly while some ticket for it is unreleased |
| NonceManager.StepKeepsInv | src/utils/nonceManager.ts:39-142 | every action keeps ticket links, FIFO order, map tails and the freshness of pending chain reads |
| NonceManager.Linearizable | src/utils/nonceManager.ts:72-142 | whatever interleaves, what the users of a key see is a run of one sequential optional counter, whose value is the cache: with none a call returns the chain's answer to its own read, with one the successor, and a reset stores one less than the answer |
| NonceManager.ChainNonceIsAnswer | src/utils/nonceManager.ts:72-98 | in every run a nonce taken from the chain is the answer to that call's own read, and a call whose read is answered returns nothing else |
| NonceManager.TicketsAreCalls | src/utils/nonceManager.ts:72-124 | every call of a run has its own place in line, with the key and the operation asked for |
| NonceManager.NoncesCountOn | src/utils/nonceManager.ts:72-124 | between clears, resets and failed reads, nonces count on from the previous nonce, or from a completed reset's answer itself, with no gap, repeat or chain read |
| NonceManager.NonceOrderIsCallOrder | src/utils/nonceManager.ts:72-98 | with no clear or reset, nonces of two served calls differ by exactly the number of calls served in between; failed reads leave no gap |
| NonceManager.NoncesFromFirstAnswer | src/utils/nonceManager.ts:72-98 | with no clear or reset, the call served after i others returns c + i, c being the chain's first answer |
| NonceManager.KeysIndependent | src/utils/nonceManager.ts:22-62 | a step on one key changes nothing of another and neither enables nor disables its callers |
| NonceManager.KeysSeparate | src/utils/nonceManager.ts:30-32 | two (address, chain) pairs share a key exactly if the chains are equal and the addresses differ in case only |
| NonceManager.SomeoneCanMove | src/utils/nonceManager.ts:39-62 | no deadlock: while a ticket is unreleased some ticket of its key can move |
| NonceManager.CallersDrain | src/utils/nonceManager.ts:39-62 | a run of callers already in line is bounded, and where it stops no lock is left |
| NonceManager.AsyncNonceManager.AcquireLock | src/utils/nonceManager.ts:39-49 | captures the tail and becomes the new one, as the step function says |
| NonceManager.AsyncNonceManager.LockGranted | src/utils/nonceManager.ts:48-51 | a waiting call goes on once its predecessor has released |
| NonceManager.AsyncNonceManager.ReleaseLock | src/utils/nonceManager.ts:51-61 | settles the promise and drops the map entry only if it is still the tail |
| NonceManager.AsyncNonceManager.Enter | src/utils/nonceManager.ts:72-124 | hands out the cached nonce plus one or starts the chain read |
| NonceManager.AsyncNonceManager.ReadAnswered | src/utils/nonceManager.ts:72-124 | stores and returns the chain's answer, or for a reset stores one less, and releases |
| NonceManager.AsyncNonceManager.ReadFailed | src/utils/nonceManager.ts:72-124 | a failed read releases the lock and stores nothing |
| NonceManager.AsyncNonceManager.ClearNonce | src/utils/nonceManager.ts:132-135 | forgets one key without taking its lock |
| NonceManager.AsyncNonceManager.ClearAllNonces | src/utils/nonceManager.ts:140-142 | forgets all nonces, keeping every lock |
| Providers.OperationsKeepConsistent | src/utils/providerManager.ts:45-191 | every operation, at any time, keeps healthy = failure count below the limit |
| Providers.PickMeaning | src/utils/providerManager.ts:80-110 | the choice is the lowest healthy provider, else the lowest cooled-down one, which alone is revived, and nobody exactly if neither exists |
| Providers.GivenUpAtLimit | src/utils/providerManager.ts:136-149 | a provider is given up with exactly the failure that fills its count up to the limit, others untouched |
| Providers.CountsSinceSuccess | src/utils/providerManager.ts:136-166 | over any successes and failures of a provider its count is the number of failures since the last success, it is unhealthy exactly while that reaches the limit, and no other record changes |
| Providers.RevivedExactly | src/utils/providerManager.ts:80-110 | with nobody healthy, a provider is picked again exactly when its cooldown since its last failure is over and no lower one's is, with its full count of failures ahead |
| Providers.ProviderManager.AddProviders | src/utils/providerManager.ts:45-71 | registers one fresh health record per constructible provider; with none, an earlier registration stays |
| Providers.ProviderManager.GetProvider | src/utils/providerManager.ts:80-110 | returns and revives as `PickMeaning` describes, other chains untouched |
| Providers.ProviderManager.GetProviderCount | src/utils/providerManager.ts:115-117 | the number of registered providers, zero for an unknown chain |
| Providers.ProviderManager.GetProviderIndex | src/utils/providerManager.ts:122-129 | the position of a registered provider, none otherwise |
| Providers.ProviderManager.MarkFailure | src/utils/providerManager.ts:136-149 | counts a failure of one provider and marks it at the limit; out-of-range indices do nothing |
| Providers.ProviderManager.MarkSuccess | src/utils/providerManager.ts:157-166 | one provider's count becomes zero and it is healthy, its last failure time kept |
| Providers.ProviderManager.ResetChain | src/utils/providerManager.ts:182-191 | all health records of one chain become fresh |
| Backoff.NominalIsPower | src/utils/retry.ts:92-105 | the wait before invocation k + 1 is the smaller of the cap and the initial delay times the (k - 1)-th power of the base |
| Backoff.NominalGrows | src/utils/retry.ts:92-105 | backoff waits never shrink and stay between the initial and the maximal delay |
| Backoff.RaisedIsPower | src/utils/retry.ts:96-99 | the wait before capping is the initial delay times a power of the base |
| Retry.AsyncRetry | src/utils/retry.ts:128-175 | ends with the first attempt that returns, throws for good or is the last, within `maxAttempts` invocations, after exactly the backoff sleeps between them |
| Retry.RetriedExactly | src/utils/retry.ts:53-68 | an invocation is followed by another exactly if attempts remain and it throws an error whose response status, else plain status, is listed, or of a listed class, or a network error with that option set |
| Retry.WaitIsPower | src/utils/retry.ts:92-105 | each sleep is that wait, moved by up to ten percent as the draw says, and never negative |
| Retry.SleepNearNominal | src/utils/retry.ts:92-105 | total sleep is within ten percent of the nominal backoff, whatever the jitter |
| Retry.NominalSumBounds | src/utils/retry.ts:92-105 | nominal backoff lies between so many initial and so many maximal delays |
| Failover.WithRpcFailover | src/core/base.ts:1341-1391 | the loop is the recursive `Call`: same health afterwards, the reply of its last attempt, at most providers x attempts invocations, one rate-limiter slot per attempt; outside failover the one provider picked or configured is retried and nothing is marked |
| Failover.GetProviderForChain | src/core/base.ts:1185-1197 | the provider the manager picks, reviving it as a pick does, else the one configured |
| Failover.AcquireRpcRateLimiter | src/core/base.ts:1332-1336 | reserves the next slot if there is a limiter |
| Failover.RunWithFailover | src/core/base.ts:1367-1391 | the attempt loop against `Call`, including invocations and slots used and success exactly if an attempt worked |
| Failover.TryOnce | src/core/base.ts:1368-1383 | one iteration: pick, reserve a slot, run, mark success or failure of the picked index |
| Failover.RunWithRetry | src/core/base.ts:1350-1356 | what a provider's retries, or its one invocation with retries disabled, come to and how many they are |
| Failover.TotalInvokedBound | src/core/base.ts:1350-1383 | so many attempts invoke the operation at most so many times the retry budget |
| Failover.CompletesAtMostOnce | src/core/base.ts:1350-1383 | within a call the operation completes at most once, in its very last invocation |
| Failover.NeverThrowingRunsOnce | src/core/base.ts:1367-1383 | an operation that never throws is invoked once, or not at all exactly if no provider can be picked |
| Failover.RetriesDisabled | src/core/base.ts:1350-1356 | with retries disabled each attempt invokes the operation once and replies what that came to |
| Failover.ReplyIsLastInvocation | src/core/base.ts:1367-1391 | the call replies the value that its last invocation returned, or the error it threw |
| Failover.SingleIsLowest | src/core/base.ts:1185-1197 | outside failover: the lowest healthy provider, else the lowest cooled-down one, else the one configured |
| FailoverRuns.FailoverTotals | src/core/base.ts:1367-1391 | provider j always working, lower ones always failing: over k calls one after another of n attempts, failed attempts are exactly min(P, k n) and throwing calls exactly min(k, P / n), P being the potential; any clock |
| FailoverRuns.OneFailureNeverThrows | src/core/base.ts:1367-1391 | with a limit of one failure no such call ever throws |
| FailoverRuns.CallBurnsPotential | src/core/base.ts:1367-1383 | one call burns one unit of potential per failed attempt and then reaches provider j |
| FailoverRuns.PotentialMeaning | src/utils/providerManager.ts:136-149 | the potential is zero exactly when every provider before j is unhealthy |
| FailoverRuns.PotentialBound | src/utils/providerManager.ts:136-149 | the potential is at most j times the failure limit |
| FailoverRuns.ExhaustionOrder | src/core/base.ts:1367-1391 | when all fail within a cooldown, attempt A of the run uses provider A / maxFailures, exactly the first maxFailures calls make one attempt per provider, later calls none |
| FailoverRuns.FreshIsUnused | src/utils/providerManager.ts:45-71 | a fresh registration is the start of that order |
| FailoverInterleaved.InterleavedTotals | src/core/base.ts:1367-1391 | overlapping calls with at most c attempts in flight: failed attempts are at most P + (c - 1) x earlier healthy providers, and throwing calls at most that divided by the providers |
| FailoverInterleaved.BoundIsAttained | src/core/base.ts:1367-1391 | that bound on failed attempts is attained: a run of overlapping calls makes exactly as many |
| FailoverInterleaved.InterleavedNeverThrows | src/core/base.ts:1367-1391 | however many calls overlap, no call fails more often than P, so none throws if P is below the number of providers, as with a limit of one failure |
| FailoverInterleaved.RunPays | src/core/base.ts:1368-1383 | in every interleaving failures come out of the cost the earlier providers can still cause, and provider j stays healthy |
| FailoverInterleaved.GivenUpExactly | src/core/base.ts:1367-1391 | in every interleaving a provider stays healthy throughout exactly if its attempts never end in as many failures in a row as the limit |
| FailoverInterleaved.CallIsRun | src/core/base.ts:1367-1391 | a call that overlaps with none does to the providers what its picks and marks do one by one, and ends alike |
| FailoverInterleaved.NeverGivenUp | src/core/base.ts:1367-1391 | over whole calls one after another, a provider that never fails as often in a row as the limit ends healthy |
| WebSocketManager.LifeCycle | src/utils/websocketManager.ts:113-461 | in every run without throws: a socket exactly while connecting or connected, one ping timer exactly while connected, every live reconnect timer tracked, attempts within the limit, and the server's topics are the client's |
| WebSocketManager.TopicsAreWanted | src/utils/websocketManager.ts:223-262 | in every run, throws included, the topics kept are those added and not since dropped or disconnected, in every connection state |
| WebSocketManager.ServerHoldsWanted | src/utils/websocketManager.ts:223-336 | so while connected, in a run without throws, the server holds exactly these |
| WebSocketManager.StepKeepsInv | src/utils/websocketManager.ts:113-461 | every user call, socket event and timer keeps that invariant |
| WebSocketManager.OnlyConnectLeavesDisconnected | src/utils/websocketManager.ts:390-419 | only an explicit `connect()` leaves `disconnected` |
| WebSocketManager.ReconnectingProceeds | src/utils/websocketManager.ts:416-418 | while reconnecting a live timer leads to a fresh socket |
| WebSocketManager.ConnectOpensSocket | src/utils/websocketManager.ts:113-129 | `connect()` opens a socket of its own unless one is there, and otherwise does nothing |
| WebSocketManager.OpenConnects | src/utils/websocketManager.ts:137-142 | an opening socket connects: attempts start anew, pings run, every topic is asked for in order |
| WebSocketManager.PingGoesOut | src/utils/websocketManager.ts:341-375 | every ping interval sends one ping and starts a pong timeout |
| WebSocketManager.LossReconnects | src/utils/websocketManager.ts:144-149 | a close or a missing pong cleans up, counts the next attempt and starts its wait, or disconnects at the limit |
| WebSocketManager.BackoffSequence | src/utils/websocketManager.ts:390-419 | until a socket opens, the waits are the backoff sequence and at most as many as the limit leaves |
| WebSocketManager.DelaysGrow | src/utils/websocketManager.ts:405-410 | waits rounded to milliseconds never shrink and stay within the limits up to half a millisecond |
| WebSocketManager.DelayIsPower | src/utils/websocketManager.ts:405-410 | the wait before attempt k is the smaller of the cap and the initial delay times the (k - 1)-th power of the base, to the nearest millisecond, never negative |
| WebSocketManager.SendAllEffect | src/utils/websocketManager.ts:332-336 | resubscribing adds exactly the listed topics to what the server holds and touches nothing else |
| WebSocketManager.TimersRunAsConfigured | src/utils/websocketManager.ts:341-419 | in every run, throws included, each live timer runs for the time configured for its kind |
| WebSocketManager.MessageIsPong | src/utils/websocketManager.ts:168-170 | while tracked, any message ends every pong timeout |
| WebSocketTimers.StrayPongDropsConnectionExactly | src/utils/websocketManager.ts:341-385 | some run under the clock drops a connection that has answered its pings exactly if the timeout is not over before the next ping |
| WebSocketTimers.PongAlwaysTracked | src/utils/websocketManager.ts:370-385 | with pings far enough apart every run keeps track of every pong timer, however late timers fire |
| WebSocketTimers.StepKept | src/utils/websocketManager.ts:341-427 | then every event keeps each pong timeout due before the next ping, and the life-cycle invariant |
| WebSocketManager.ThrowingConnectLeaksExactly | src/utils/websocketManager.ts:113-129 | a throwing constructor leaks a reconnect timer exactly if one runs and attempts remain |
| WebSocketManager.LeakReachableExactly | src/utils/websocketManager.ts:113-129 | such a leak is reachable exactly unless a single attempt is allowed |
| WebSocketManager.ThrowingConnectKeepsInvExactly | src/utils/websocketManager.ts:113-129 | a throwing `connect()` keeps the life cycle exactly if no reconnect is scheduled |
| WebSocketManager.GivenUpStillConnects | src/utils/websocketManager.ts:393-419 | with no attempt left it gives up, and the scheduled timer connects all the same |
| WebSocketManager.ThrowingReconnectKeepsInv | src/utils/websocketManager.ts:416-418 | a throw in the reconnect timer's own `connect()` keeps the life cycle |
| WebSocketManager.ThrowingPingKeepsSocket | src/utils/websocketManager.ts:344-354 | a throwing ping schedules a reconnect but keeps socket, handlers and ping timer |
| WebSocketManager.OldSocketTakesNewDown | src/utils/websocketManager.ts:144-149 | the reconnect opens a second socket, and the old one's close takes it down |
| WebSocketManager.DisconnectClosesOpenSocketOnly | src/utils/websocketManager.ts:432-461 | `disconnect()` silences all sockets, closes the current one exactly if it has opened, and only `connect()` changes that |
| WebSocketManager.Manager.ConnectNow | src/utils/websocketManager.ts:113-129 | `connect()` as the step function says, throwing constructor included |
| WebSocketManager.Manager.OnOpen | src/utils/websocketManager.ts:137-142 | connected, attempts reset, ping timer restarted, all topics resent |
| WebSocketManager.Manager.OnClose | src/utils/websocketManager.ts:144-149 | cleanup, then a reconnect unless disconnected |
| WebSocketManager.Manager.OnMessage | src/utils/websocketManager.ts:168-170 | the tracked pong timer is cleared |
| WebSocketManager.Manager.OnTimer | src/utils/websocketManager.ts:341-427 | the callbacks of the three kinds of timer |
| WebSocketManager.Manager.SubscribeTopic | src/utils/websocketManager.ts:223-234 | keeps the topic and sends it when connected |
| WebSocketManager.Manager.UnsubscribeTopic | src/utils/websocketManager.ts:239-262 | forgets the topic and says so only if it was known and the client is connected |
| WebSocketManager.Manager.ResubscribeAll | src/utils/websocketManager.ts:332-336 | one subscribe per topic, in order |
| WebSocketManager.Manager.Schedule | src/utils/websocketManager.ts:390-419 | give up at the limit, else count the attempt and start its timer |
| WebSocketManager.Manager.CleanupAll | src/utils/websocketManager.ts:432-452 | clears the three timers, detaches and forgets the socket |
| WebSocketManager.Manager.DisconnectNow | src/utils/websocketManager.ts:457-461 | disconnected, cleaned up, no topics |
| MemoryCache.GetIsLatestWrite | src/utils/cache.ts:50-70 | after any run, what `get` returns is the latest write of the key since the last clear, within the TTL in force at that write; the size is capped |
| MemoryCache.StepAgrees | src/utils/cache.ts:40-115 | every operation keeps store and write ledger in agreement |
| MemoryCache.LiveEntrySurvives | src/utils/cache.ts:60-115 | an entry is lost before its expiry only to a clear, a rewrite, a shrink, or when the keys behind it and those coming into the store after it are as many as the cap |
| MemoryCache.NewWriteIsFound | src/utils/cache.ts:50-70 | a new key's value is read back unless as many distinct other keys as the cap come into the store, or a clear or its expiry comes first |
| MemoryCache.EvictedExactly | src/utils/cache.ts:60-106 | a live entry survives reads and writes of any other keys exactly if the keys behind it and those coming into the store are together fewer than the cap |
| MemoryCache.RewriteKeepsRank | src/utils/cache.ts:60-70 | rewriting a key leaves the same entries before and behind it |
| MemoryCache.RewrittenEntryEvictedExactly | src/utils/cache.ts:60-106 | a value just rewritten is lost to the next write of any other key exactly if the keys behind it, less those swept, fill the cap with a newcomer |
| MemoryCache.SweepDropsOnlyDead | src/utils/cache.ts:108-115 | the sweep removes exactly the entries past their expiry |
| MemoryCache.FiftiethWriteSweeps | src/utils/cache.ts:60-70 | every fiftieth write after a clear leaves nothing past its expiry |
| MemoryCache.ReadingRemovesExpired | src/utils/cache.ts:50-58 | reading an expired entry removes it, and reading removes nothing else |
| MemoryCache.Cache.SetTtl | src/utils/cache.ts:40-42 | only the TTL of later writes changes |
| MemoryCache.Cache.SetMaxSize | src/utils/cache.ts:45-48 | sets the cap and trims at once |
| MemoryCache.Cache.Get | src/utils/cache.ts:50-58 | a live value, or none after dropping an expired entry |
| MemoryCache.Cache.Set | src/utils/cache.ts:60-70 | write, trim, count and perhaps sweep |
| MemoryCache.Cache.Clear | src/utils/cache.ts:72-76 | store, pending promises and write count are emptied |
| MemoryCache.Cache.TrimToSize | src/utils/cache.ts:97-106 | deletes from the oldest end down to the cap |
| MemoryCache.Cache.Cleanup | src/utils/cache.ts:108-115 | the in-place deletion loop keeps exactly the live entries in order |
| SingleFlight.AtMostOneFetch | src/utils/cache.ts:210-255 | if `clear()` never hits the key in flight: at most one unfinished fetch, and `pending` has the key exactly while the initiator has not run its finally block |
| SingleFlight.JoinersShareOutcome | src/utils/cache.ts:228-254 | every caller ends with the outcome of the fetch it started or joined |
| SingleFlight.OnlyGoodValuesServed | src/utils/cache.ts:234-247 | in every interleaving nothing but good outcomes of fetches of that key is stored or served |
| SingleFlight.InvokeExactly | src/utils/cache.ts:216-254 | in every state: with an unexpired value other than null a call ends with it and nothing is fetched, else it joins the pending fetch, and exactly with neither it starts one |
| SingleFlight.ServedUntilExpiry | src/utils/cache.ts:210-255 | in every run: once a fetch has come to a value other than null, every call of its key gets it and starts no fetch until it expires, is replaced or cleared, or as many other keys as the cap push it out |
| SingleFlight.RunIsEvents | src/utils/cache.ts:210-255 | a run does to the cache what its reads and writes do in order |
| SingleFlight.StepOneFlight | src/utils/cache.ts:210-255 | every action, a quiet clear included, keeps the one-flight invariant |
| SingleFlight.ClearBreaksExactly | src/utils/cache.ts:210-255 | after a clear, later calls can bring two fetches of the key to run at once if and only if the pending map held the key |
| SingleFlight.ClearDuplicatesExactly | src/utils/cache.ts:72-76 | the very next caller after a clear starts a second concurrent fetch exactly if one was running |
| SingleFlight.OldOwnerUncoversNewFetch | src/utils/cache.ts:249-254 | from any state whose fetch has settled but whose owner has not resumed: a clear, a new fetch, the owner's finally, and another one starts beside it |
| SingleFlight.ClearLetsThroughExactly | src/utils/cache.ts:234-240 | with no further call for the key, a value can come into the cleared store exactly if a fetch of it was running at the clear |
| SingleFlight.CachedMethod.InvokeNow | src/utils/cache.ts:216-247 | hit, join or start, up to the first await |
| SingleFlight.CachedMethod.SettleNow | src/utils/cache.ts:234-246 | a good outcome is stored, then the promise settles |
| SingleFlight.CachedMethod.ResumeNow | src/utils/cache.ts:249-254 | a waiter gets the settled outcome; the owner removes the pending entry |
| RateLimiter.SlotsAreSchedule | src/utils/rateLimit.ts:42-56 | slots keep callers in order, none before its arrival, all one interval apart |
| RateLimiter.SlotsAreLeast | src/utils/rateLimit.ts:42-56 | no such schedule serves anyone earlier |
| RateLimiter.SlotIsMaxPlus | src/utils/rateLimit.ts:42-56 | a slot is the largest of arrival plus intervals over the callers so far and the cursor |
| RateLimiter.FirstUseMaxPlus | src/utils/rateLimit.ts:42-56 | for a new limiter arrivals alone decide |
| RateLimiter.WindowHoldsAtMost | src/utils/rateLimit.ts:42-56 | a half-open window of length W holds at most ceil(W / interval) slots, whatever the clock does |
| RateLimiter.SlotsCompose | src/utils/rateLimit.ts:42-56 | a caller continues from the cursor that earlier callers leave |
| RateLimiter.ResetKeepsSpacingExactly | src/utils/rateLimit.ts:42-64 | over any number of resets, with or without callers in between, the slots keep the spacing exactly if after every group the next to come wait for the cursor it left |
| RateLimiter.OneResetKeepsSpacingExactly | src/utils/rateLimit.ts:42-64 | one reset, with nobody before or after it allowed |
| RateLimiter.AsyncRateLimiter.Create | src/utils/rateLimit.ts:28-33 | a rate is accepted exactly if positive, and its interval is its inverse |
| RateLimiter.AsyncRateLimiter.Acquire | src/utils/rateLimit.ts:42-56 | sleeps until the slot of the schedule and moves the cursor behind it |
| RateLimiter.AsyncRateLimiter.Reset | src/utils/rateLimit.ts:62-64 | the cursor goes back to zero |
| Decimal.WeiMonotone | src/utils/decimal.ts:46-52 | conversion to wei is monotone |
| Decimal.WeiOdd | src/utils/decimal.ts:46-52 | and odd: it truncates toward zero |
| Decimal.RoundTripExactly | src/utils/decimal.ts:46-70 | `fromWei` and `toWei` back is the identity exactly up to 20 decimals or where the missing digits are zero |
| Decimal.QuantizeIdempotent | src/utils/decimal.ts:80-87 | quantizing again changes nothing |
| Decimal.QuantizedWei | src/utils/decimal.ts:46-87 | quantize then convert truncates the wei to a multiple of the display unit, or changes nothing with more displayed digits than decimals |
| Decimal.AcceptsExactly | src/utils/decimal.ts:109-129 | an amount is accepted exactly if some displayable value lies within the tolerance |
| Decimal.SnapsToNearest | src/utils/decimal.ts:119-128 | and is snapped to a displayable value within it, as near as any |
| Decimal.RoundsHalfEven | src/utils/decimal.ts:119-128 | the rounding is to the nearest integer, the even one of two |
| Decimal.FromWeiExactly | src/utils/decimal.ts:64-70 | `fromWei` is exact up to 20 decimals, and beyond the nearest number of 20 places, the outer one of two |
| Decimal.SnapIdempotent | src/utils/decimal.ts:109-129 | snapping again changes nothing |
| Decimal.SnapUnique | src/utils/decimal.ts:95-129 | up to nine display decimals only one displayable value is within the tolerance |
| Decimal.NeverRejectsFromTen | src/utils/decimal.ts:95-129 | from ten display decimals on nothing is rejected |
| Decimal.PositiveSnapsToZeroExactly | src/utils/decimal.ts:118-128 | a positive amount snaps to zero exactly within the tolerance and half a displayed unit |
| Decimal.HalfUnitExceedsTolerance | src/utils/decimal.ts:95-128 | up to nine display decimals the tolerance alone decides |
| Decimal.DisplayedToWeiExactly | src/utils/decimal.ts:46-52 | a displayed value converts to wei without loss exactly if the decimals suffice or the missing digits are zero |
| Orders.OrderReachesWeiExactly | src/core/clob.ts:373-407 | an accepted order's price and quantity are the snapped values to the last wei, whole display units, within the tolerance of the request, and the notional in wei respects each bound |
| Orders.AcceptedExactly | src/core/clob.ts:836-843 | for every pair, an order is accepted exactly if no digit count is negative, amount and price are on the display grid and no bound is broken |
| Orders.BoundsInWei | src/utils/decimal.ts:138-162 | the bounds check read off the two wei amounts |
| Orders.PositiveAmountBecomesZeroExactly | src/core/clob.ts:1501-1518 | for every pair, exactly which positive unpriced amounts become an order for nothing |
| Orders.AcceptedPartsBecomeZeroExactly | src/core/clob.ts:836-843 | for every pair, exactly which positive amounts and prices of accepted orders become zero |
| Orders.PricedOrderBecomesZeroExactly | src/core/clob.ts:836-843 | with display digits within the decimals, a priced order ends with a zero amount or price exactly if that vanishes, the other is displayable and no lower bound is set |
| Orders.TruncatesExactly | src/core/clob.ts:836-843 | for every pair, an accepted order's amount and price arrive in full exactly if the token's digits hold them, and otherwise strictly less does |
| Orders.MoreDisplayThanDecimalsTruncates | src/core/clob.ts:842-843 | one input that loses everything |
| WorkerPool.ChoiceThrowsExactly | src/core/transfer.ts:1128-1148 | the choice of a token's address throws exactly if no row is of the chain, the chain's name is looked up by environment, and a row without one comes first |
| WorkerPool.AddressIsOfFirstRow | src/core/transfer.ts:1126-1150 | the address read is that of the first row of the chain, else of the first whose environment goes with the chain's name, if it has one that is not zero |
| WorkerPool.ClaimedAtMostOnce | src/core/transfer.ts:1117-1175 | in every interleaving each token is being read or reported at most once, only with a usable address |
| WorkerPool.AtMostConcurrencyReads | src/core/transfer.ts:1118-1174 | never more reads in flight than the configured concurrency |
| WorkerPool.RejectsExactly | src/core/transfer.ts:1174 | when all workers are done the sweep rejects exactly if some token's choice throws |
| WorkerPool.ReportedExactly | src/core/transfer.ts:1117-1175 | and any token has been reported exactly once if it is usable and fewer choices throw before it than there are workers, otherwise never |
| WorkerPool.NoneLostExactly | src/core/transfer.ts:1117-1175 | every usable token is reported exactly if none has as many throwing choices before it as there are workers |
| WorkerPool.AllReportedOnce | src/core/transfer.ts:1117-1175 | so if no choice throws, every usable token is reported exactly once |
| WorkerPool.OutcomeFixed | src/core/transfer.ts:1116-1175 | the result does not depend on interleaving, and on the number of workers only in so far as throws use them up: each token reached is a balance if its read succeeds, an error if not |
| WorkerPool.SweepTerminates | src/core/transfer.ts:1117-1175 | every run takes at most one action per worker and token, and where no action is left all workers are done |
| WorkerPool.Sweep.Loop | src/core/transfer.ts:1122-1151 | a worker claims tokens up to the next usable or throwing one |
| WorkerPool.Sweep.Begin | src/core/transfer.ts:1122-1124 | a worker starts its loop |
| WorkerPool.Sweep.Answered | src/core/transfer.ts:1152-1172 | a read is reported as balance or error, then the worker goes on |
| ChainBalances.CollectedOnce | src/core/transfer.ts:932-945 | if no token throws, the sweep runs once and each usable token is reported exactly once, or nothing if no provider can be picked |
| ChainBalances.ReportedPerInvocation | src/core/transfer.ts:936-938 | over the attempts of a call a token the workers reach is reported once per invocation of the sweep, any other never |
| ChainBalances.ReportedPerAttempt | src/core/transfer.ts:932-945 | whatever throws and whatever the providers' health, a token the workers reach is reported once per attempt of the call, any other never |
| ChainBalances.ThrowingTokenDuplicates | src/core/transfer.ts:936-938 | on fresh providers a throwing token makes every token the workers reach, before or behind it, be reported once for each provider |
| ChainBalances.DuplicatesExactly | src/core/transfer.ts:936-938 | for any health, a token is reported more than once exactly if the workers reach it, some token throws, there are several providers and one can be picked after the first failure |
| Paging.SequentialExactly | src/core/transfer.ts:1218-1239 | read one by one, the record is that of all rows before the first empty page, or a throw if something throws before it |
| Paging.FetchBatches | src/core/transfer.ts:1204-1244 | for any answers, throws included, any batch size and cap: the outcome of reading one by one, unless a page beyond the one it stops at, in that page's batch, throws; exactly the batches up to that page are requested |
| Paging.BatchesDifferExactly | src/core/transfer.ts:1214-1239 | the two differ exactly if reading one by one stops at an empty page and a page after it in the same batch throws |
| Paging.FetchAll | src/core/transfer.ts:1197-1244 | the same for batches of 5 capped at 50 pages |
| Paging.ReadBatch | src/core/transfer.ts:1214-1239 | a batch throws exactly if a request of it does or a page before its first empty one does not decode; else it is read in order up to that page |
| Paging.AddRows | src/core/transfer.ts:1223-1237 | rows are written into the record in order, unless one does not decode |
| Paging.LastRowWins | src/core/transfer.ts:1223-1237 | the record has exactly the symbols seen, each with its last row |
| OrderId.EncodesExactly | src/core/clob.ts:428-461 | a string encodes, to exactly 32 bytes, exactly if the validator accepts it or it is blank up to a hex prefix, and it is no decimal of 2^256 or more |
| OrderId.EncodesByForm | src/core/clob.ts:428-461 | by the trimmed text alone: which prefixed, decimal, bare hex and other ids encode, and to which bytes |
| OrderId.ValidatesExactly | src/utils/inputValidators.ts:142-199 | the validator accepts what encodes, but nothing empty, and besides numerals that are too large |
| OrderId.BlanksDoNotCount | src/core/clob.ts:438 | blanks around an id do not count |
| OrderId.NumberSurvives | src/core/clob.ts:438-452 | a decimal or hex id is the big-endian number of its bytes |
| OrderId.NumericFormsAgree | src/core/clob.ts:438-452 | numeric ids of any form encode alike exactly if they are the same number |
| OrderId.RawKeepsValue | src/core/clob.ts:429-437 | byte ids keep their value up to 32 bytes, and valid ones are unchanged |
| OrderId.BareDigitsAreDecimal | src/core/clob.ts:447-452 | 64 decimal digits name the same order as with a hex prefix exactly below ten |
| OrderId.PlainIdsCollideExactly | src/core/clob.ts:453-460 | two plain ids encode alike exactly if they agree up to lone surrogates and NULs at the end |
| OrderId.PlainIdsDistinct | src/core/clob.ts:453-460 | distinct trimmed plain ids without either give distinct bytes |
| OrderId.IdsCollideExactly | src/core/clob.ts:428-461 | two ids of any forms, bytes, decimal, hex or plain, encode alike exactly if they stand for the same number, a plain id for its UTF-8 moved to the left end |
| OrderId.SmallNumbersMeetNoPlainId | src/core/clob.ts:438-460 | so a number below 256^31 encodes like no plain id but one starting with NUL |
| OrderId.SameScalars | src/core/clob.ts:453 | two strings of code units have the same characters exactly if they differ in lone surrogates only |
| OrderId.ClassAgrees | src/core/clob.ts:447-450 | matching ASCII classes by code unit or by character comes to the same |
| OrderId.OrderIdToBytes32 | src/core/clob.ts:428-461 | the encoder over byte arrays computes the specified bytes or refusal |
| OrderId.TextToBytes32 | src/core/clob.ts:439-460 | every form of a string id, digit by digit |
| ChainAlias.NormalIsJoinedWords | src/utils/chainResolver.ts:46-51 | the normal form is the lower-cased maximal alphanumeric runs joined by single blanks |
| ChainAlias.SameNormalForm | src/utils/chainResolver.ts:46-51 | two references have one normal form exactly if they have the same words |
| ChainAlias.NormalExactlyTidy | src/utils/chainResolver.ts:46-51 | normalising leaves exactly the tidy strings alone and is idempotent |
| ChainAlias.RunsOfJoin | src/utils/chainResolver.ts:46-51 | joining words and reading them back gives the words |
| ChainAlias.OnlyWordsCount | src/utils/chainResolver.ts:250-277 | references with the same words are refused alike or resolve to the same chain, each echoed as given |
| ChainAlias.ResolvesToConnected | src/utils/chainResolver.ts:250-277 | a reference resolves only to a connected chain, or Dexalot L1 when included, that it means by alias, id, name or alias group |
| ChainAlias.ResolvesExactly | src/utils/chainResolver.ts:250-277 | a reference resolves exactly if it is an alias, an id, the only such name, or fits one chain or the active one |
| ChainAlias.ResolvesInOrder | src/utils/chainResolver.ts:250-293 | which chain: a Dexalot alias first, then the first with the id, the only one of the name, the only one that fits, the first fitting one that is active; and which refusal otherwise |
| ChainAlias.FitsByTables | src/utils/chainResolver.ts:211-234 | a chain fits exactly if an entry of its family lists the reference, in general or for the chain's environment |
| ChainAlias.CandidatesAreFitting | src/utils/chainResolver.ts:221-234 | deduplication does nothing: candidates are the fitting connected chains |
| ChainAlias.GroupsMeaning | src/utils/chainResolver.ts:211-219 | a group is matched exactly if an entry lists the reference in that table |
| ChainAlias.IdResolves | src/utils/chainResolver.ts:200-204 | a connected chain's id, of either sign, resolves to a chain with that id |
| ChainAlias.OrderIrrelevant | src/utils/chainResolver.ts:156-178 | with distinct ids the order of the configured chains does not matter |
| ChainAlias.SharedIdGoesToFirst | src/utils/chainResolver.ts:200-204 | with a shared id it does: the first one wins |
| ChainAlias.FamilyOfKnownIdExactly | src/utils/chainResolver.ts:96-123 | a chain with a known id gets its own family exactly if its name has no word of a family tried earlier |
| ChainAlias.FamilyIsFirst | src/utils/chainResolver.ts:96-120 | in general the family is the first that has the id or a word of the name, and there is none if none has |
| ChainAlias.EnvironmentOfId | src/utils/chainResolver.ts:125-132 | a known id settles the environment whatever the name; otherwise the words of the name do, testnet before mainnet |
| ChainAlias.SepoliaLeavesFamily | src/utils/chainResolver.ts:102-105 | a chain with Sepolia in its name never gets a family tried after Ethereum's |
| ChainAlias.GetResolvableChains | src/utils/chainResolver.ts:156-178 | the loop lists Dexalot L1, if included, then the configured chains with inferred family and environment |
| ChainAlias.ResolvableChains | src/utils/chainResolver.ts:156-178 | these are the configured chains by name and id, in order, after Dexalot L1 with the subnet's id |
| ChainAlias.MatchAliasGroups | src/utils/chainResolver.ts:211-219 | the loop collects the matched groups in order |
| ChainAlias.DedupeChains | src/utils/chainResolver.ts:221-225 | the map-filling loop against its specification |

## Left out

- HTTP, ethers contracts, signing, ABI encoding and gas estimation: foreign calls, modelled as arbitrary answers or failures.
- Order-type and modifier tables, config loading, field aliasing, logging and the CLI: finite tables and wiring.
- Error sanitising and error texts: only the kind of a refusal is modelled.
- The secrets vault: mostly library cryptography and file access.
- IEEE-754: `toNumber`, `parseFloat` and `total - available` are exact here, as are delays and clocks.
- Parsing of numbers and strings into `Big`, and its refusal of malformed input.
- The private and order-book paths of the WebSocket manager, which await a signer mid-send, and message routing to callbacks.
- WebSocketManager.Manager.SubscribeTopic: models the plain public topic; private and order-book payloads and a throwing send are not in it.
- WebSocketManager.Manager.UnsubscribeTopic: models the plain public topic; the order-book payload and a throwing send are not in it.
- WebSocketManager.Manager.ResubscribeAll: models plain public topics, whose sends do not throw.
- Timer delays beyond what the runtime's timers accept.
- Failover.WithRpcFailover: states what one call does when no other call marks health meanwhile; overlapping calls are the state machine of `FailoverInterleaved`.
- Failover.RunWithFailover: as `WithRpcFailover`.
- Failover.TryOnce: as `WithRpcFailover`.
- ExhaustionOrder: speaks of sequential calls that start on a fresh registration and stay within one cooldown.
- The network lookup by which a nonce call without a chain id finds its key.
- The bypass of `withInstanceCache` when caching is switched off, and a fetch that calls its own key again.
- The native-balance read of `_collectChainBalances`, a single call whose result is one entry.
- The contents of the alias tables: arbitrary data.
- Numbers that print with a fraction or an exponent as chain references.
