# Verified models of hwhkit-go

This project models the stateful parts of hwhkit-go in Dafny 4.11 and proves what they guarantee.
`dafny verify dfyconfig.toml` checks all of it.

| files | what they model |
|---|---|
| `TokenBucket.dfy`, `RateLimiter.dfy` | the Redis token bucket: the script on one key, runs of requests, the limiter over many keys and its middleware |
| `IdempotencyKeys.dfy`, `IdempotencyProtocol.dfy`, `IdempotencyRuns.dfy`, `IdempotencyLimits.dfy`, `IdempotencyStore.dfy` | the `Idempotency-Key` protocol: key strings, the concurrent protocol over a shared Redis, runs that show its limits, and the middleware as code |
| `Recorder.dfy` | recording a handler's response and replaying it |
| `TenantScope.dfy` | the lazy per-tenant cache under its read-write lock |
| `Lifecycle.dfy` | options, bootstrap of the integration providers, shutdown on a signal |
| `SseStream.dfy`, `AnthropicMessages.dfy` | the two streaming pumps, the 16-slot channel, the split of system messages |
| `EnvPath.dfy`, `Itoa.dfy` | environment variables to configuration paths; decimal formatting in a fixed buffer |

Code that updates state is modelled by classes and methods proved against specification functions; concurrent
code is a step function over events, and a run is any sequence of events, an event that is not enabled changing
nothing. The theorems are lemmas over all runs. The specification functions are themselves pinned down by laws in
figures, which name the strings, statuses and numbers of the source (`StepInFigures`, `CallInFigures`, `OneDataLine`,
`OneHeaderOneWrite`, `WireInOrder`, `ProvidersInOrder`, `AtomicMapLaws`, `DecodeInFigures` and others below).

## Main results

**Rate limiter.** Tokens are multiplied by the window, so everything is integer arithmetic. The specification writes the
script's products and its quotient as sums; the method that follows the script computes them as the script does. The
decision on a request depends only on the history, by a closed form (`DecidedByHistory`). Admitting whenever possible is
optimal, for every burst and whatever keys are dropped (`GreedyIsOptimal`, `GreedyIsOptimalWithExpiry`). Key expiry is
unobservable exactly if burst <= 2 * limit (`ExpiryUnseenIffSmallBurst`), and exactly then the script never admits more
than a bucket can pay for (`GreedyIsAffordableIffSmallBurst`); with any burst an envelope still holds
(`ExpiryEnvelope`). Denials, which rewrite the stored state, can be left out unnoticed wherever the clock does not go
back to or from them (`DenialsAreInvisible`); exactly at which later times one denial shows is `OneDenialExact`, at none
if its clock is not behind the stored time stamp; behind it every configuration has a run in which it shows
(`SkewedDenialIsVisible`). The wait is exact and an obedient client gets in (`WaitIsExact`, `ObedientClientIsAdmitted`).

**Idempotency.** Holders of a lock are bounded by the lock present and its expiries (`HoldersAreBounded`), and the bound
is met for every number of expiries (`HolderBoundIsTight`). While a response is stored, whoever runs the handler had
missed before (`LateRunsHadMissed`); retries that arrive later are replayed (`RetriesAreReplayed`), and with the very
response that is stored once nobody is between a miss and a store (`SettledIsReplayed`). Four statements one might expect
are false of the code, and the project has the runs that show it and the exact conditions:

- The design document (docs/specs/2026-05-16-hwhkit-go-rs-parity-design.md:615-620) says that a key is executed once and
  then replayed. The code does not read the cache again once it has the lock, so two overlapping requests can both
  execute without any fault or expiry (`BothExecute`). Exactly who can still execute, from any state whatever and for
  any key, is `CanStillRunExact`: a request whose lock is free or has a holder to free it, and whose read has missed
  already or can still miss; for requests yet to come it is `NewcomerCanRunExact`. Once a response is stored under a key
  that is nobody's lock key, these are the ones that have missed already (`LateRunOfPresentExact`). A lock key can also be
  taken by another request's stored response; whoever waits for it then cannot run unless something expires
  (`WaiterIsShutOut`).
- A stored response can be deleted by the unlock of another request, whose lock key is spelled the same. A later
  request can therefore run again exactly if its cache key is the lock key of some request (`LateRunExact`). This can be
  read off the request (`AliasedExactly`): path:key ends in `:lock` and has room for a path and a key before it; on a path
  without a colon, its key is another key followed by `:lock` (`LateRunOnPlainPaths`).
- The same document reserves 409 for keys in flight. A request can get it with nobody in progress, because its lock key
  holds a stored response (`WaiterIsShutOut`) or because a reply to SETNX or a DEL was lost (`LostReplyConflicts`,
  `LostUnlockConflicts`); these are all the ways (`ConflictMeansHolder`). Unless a command on that very lock was lost, a conflict comes with nobody in
  progress exactly if the lock key holds a stored response and has no holder (`ConflictExact`).
- The cache is said to be keyed by (method, path, key). The string is injective in method and `path:key` only
  (`CacheKeysCollide`), so paths with a colon can share responses (`ColonMixesPaths`); without colons they cannot
  (`ReplaysWereExecuted`).

What the client gets is settled by the first call of the handler that commits the response, what is recorded by the last
WriteHeader (`SentIsFirstKeptIsLast`), for every handler. From this follow the exact conditions under which a replay has
the status (`ReplayedStatusExact`), the body (`ReplayedBodyExact`) and each header with all its values
(`ReplayedHeaderExact`) that were sent, and under which a success is not stored or a failure is (`StoredExactly`): a 500
followed by a second WriteHeader(200) is replayed as a success (`StatusMismatches`), and of a header with two values the
second is lost (`SecondValueIsLost`). A handler that sets its status once and before writing is replayed with the same
status, body and first header values (`ReplayIsFaithful`), and with a header as it was sent exactly if that has at most
one value (`OneValueIsFaithful`).

**Tenant scope.** Every interleaving is linearizable to an atomic get-or-create map, respecting real time
(`ScopeIsLinearizable`, `RealTimeOrder`), and every value it creates came from the factory call of the operation that
created it; between writes all successful reads give one pointer (`SamePointer`).

**Lifecycle.** Bootstrap succeeds under an exact condition and partitions the enabled providers; from bootstrap to the end
of the signal path the provider brackets match.

**Streaming.** For every schedule the reader gets exactly the parsed prefix and the close, without deadlock and in a bounded
number of moves; a reader that stops leaves the pump blocked for good exactly if more than 16 chunks are left
(`AbandonedPumpEndsExactly`). The OpenAI-compatible pump drops the scanner's error (`OpenAIHidesScanErrors`), although the
chunk type documents a field for transport failures (integration/llm/types.go:98-100); the reader is told exactly by the
Anthropic pump and without a [DONE] before (`ScanErrorShowsExactly`).

**Codecs.** The round trip from path to variable and back holds exactly for separable paths (`RoundTripExact`): leading
underscores and a final one in the last segment do no harm. `Itoa` is right for every 64-bit integer but the least, for
which the code returns a lone sign.

## Model

| member | source | states |
|---|---|---|
| TokenBucket.StepKeepsValid | ratelimit/middleware.go:54-72 | whatever the clock, the stored level stays within [0, burst] and the deadline is two windows after the time stamp |
| TokenBucket.StepInFigures | ratelimit/middleware.go:54-72 | what one run of the script finds, decides, stores and answers, with the products and the rounded quotient of the script |
| TokenBucket.LevelIsClosedForm | ratelimit/middleware.go:54-72 | the level a request finds is the least of the caps put on it by the suffixes of the history, for any clock |
| TokenBucket.DecidedByHistory | ratelimit/middleware.go:54-72 | a request is admitted exactly if every suffix of the history, this request included, is within burst + rate * forward clock moves |
| TokenBucket.DecidedByHistoryWithExpiry | ratelimit/middleware.go:54-72 | the same while Redis drops keys, for burst <= 2 * limit |
| TokenBucket.ForwardTelescopes | ratelimit/middleware.go:58-59 | on a clock that never goes back, forward moves add up to the elapsed time |
| TokenBucket.DefaultBurstHidesExpiry | ratelimit/middleware.go:75-78 | the default burst satisfies burst <= 2 * limit |
| TokenBucket.NewAdmitsBurst | ratelimit/middleware.go:75-78 | a new limiter admits at one instant exactly its burst, which is the limit if none is given |
| TokenBucket.ExpiryIsTransparent | ratelimit/middleware.go:54-72 | with burst <= 2 * limit, dropping expired keys changes no reply and no stored state of any run |
| TokenBucket.ExpiryUnseenIffSmallBurst | ratelimit/middleware.go:54-72 | expiry changes no decision of any run exactly if burst <= 2 * limit |
| TokenBucket.StepSpends | ratelimit/middleware.go:60-71 | an admission costs one token and a denial none |
| TokenBucket.SkewEnvelope | ratelimit/middleware.go:54-72 | for any clock values, a contiguous run admits at most burst + rate * forward moves, and leaves at most the rest |
| TokenBucket.ElapsedEnvelope | ratelimit/middleware.go:54-72 | on a monotone clock the bound is burst + rate * elapsed time |
| TokenBucket.ExpiryEnvelope | ratelimit/middleware.go:54-78 | with keys being dropped, for any burst: at most burst + max(limit/window, burst/(2 window)) * time |
| TokenBucket.GreedyIsOptimal | ratelimit/middleware.go:58-72 | no choice of admissions that a bucket of the same burst and rate can pay for admits more on any prefix, and the script's own choice is one of them |
| TokenBucket.GreedyIsOptimalWithExpiry | ratelimit/middleware.go:58-72 | the upper bound holds for every burst and whatever keys are dropped whenever |
| TokenBucket.GreedyIsAffordableIffSmallBurst | ratelimit/middleware.go:58-78 | under expiry what the script admits is affordable in every run, so that it is a maximum too, exactly if burst <= 2 * limit |
| TokenBucket.SameLevelLater | ratelimit/middleware.go:58-67 | leaving out denied requests changes the level found at no later time, if the clock does not go back to or from them |
| TokenBucket.OneDenialExact | ratelimit/middleware.go:54-67 | exactly at which times the level found is not changed by a denial; so at none from it on exactly if its clock is not behind the stored time stamp |
| TokenBucket.DenialsAreInvisible | ratelimit/middleware.go:58-67 | leaving out any denied requests changes no other reply, wherever the clock goes back except to or from one of them |
| TokenBucket.DenialsAreInvisibleWithExpiry | ratelimit/middleware.go:58-67 | the same with keys dropped in both runs, for burst <= 2 * limit |
| TokenBucket.SkewedDenialIsVisible | ratelimit/middleware.go:58-64 | for every configuration there is a run whose clock goes back once, to a denial, and in which leaving that out turns an admission into a denial |
| TokenBucket.WaitIsExact | ratelimit/middleware.go:62-66 | a denial's wait is between 1 and the window, and a request d ms later, key dropped or not, is admitted exactly if d >= wait |
| TokenBucket.ObedientClientIsAdmitted | ratelimit/middleware.go:114-117 | Retry-After strictly exceeds the wait by at most one second, and who comes back at that time or later is admitted |
| TokenBucket.WaitIsCeiling | ratelimit/middleware.go:65 | the wait of the specification is the script's quotient rounded up |
| RateLimiter.Limiter.constructor | ratelimit/middleware.go:75-83 | starts with no keys, the given limit and window; the burst defaults to the limit and the prefix to "ratelimit:" |
| RateLimiter.Limiter.Expire | ratelimit/middleware.go:64 | drops a key only at its deadline |
| RateLimiter.Limiter.RunScript | ratelimit/middleware.go:47-73 | the script as statements leaves the key as one step of the bucket does, and touches no other key |
| RateLimiter.Limiter.Allow | ratelimit/middleware.go:85-103 | an empty key is let through untouched; an error hides the decision but not the effect when only the reply is lost |
| RateLimiter.Limiter.Serve | ratelimit/middleware.go:105-123 | 500 on errors, the handler when admitted, and 429 always with a Retry-After otherwise |
| RateLimiter.KeysAreIndependent | ratelimit/middleware.go:90-93 | in a run over many keys each key is treated as if its requests were the only ones |
| IdempotencyKeys.CacheKeysCollide | idempotency/middleware.go:59 | two requests share a cache key exactly if they agree on the method and on path:key |
| IdempotencyKeys.CacheKeyInjective | idempotency/middleware.go:59 | on paths without a colon the cache key is injective |
| IdempotencyKeys.MutatingMethodsAreColonFree | idempotency/middleware.go:115-121 | no mutating method holds a colon |
| IdempotencyKeys.MutatingExactly | idempotency/middleware.go:115-121 | exactly POST, PUT, PATCH and DELETE are handled, in any case |
| IdempotencyKeys.AliasedNeedsLockSuffix | idempotency/middleware.go:59-60 | a cache key is a lock key only if the client's key is "lock" or ends in ":lock" |
| IdempotencyKeys.AliasedExactly | idempotency/middleware.go:59-60 | a cache key is the lock key of some request exactly if path:key ends in ":lock" and has a colon before that with a key in between |
| IdempotencyKeys.AliasedOnPlainPaths | idempotency/middleware.go:59-60 | on a path without a colon it is the lock key of some request, on whatever path, exactly if the client's key is a non-empty key followed by ":lock" |
| IdempotencyProtocol.HoldersAreBounded | idempotency/middleware.go:67-87 | in every reachable state the requests between SETNX and DEL on a lock are at most one if it is present plus one per expiry of it so far |
| IdempotencyProtocol.MutualExclusion | idempotency/middleware.go:67-87 | as long as the lock has not expired, two requests never hold it at once |
| IdempotencyProtocol.LateRunsHadMissed | idempotency/middleware.go:62-87 | while a response is stored and no read of its key fails, handlers are started only by requests whose read had missed before, and no new such requests appear |
| IdempotencyProtocol.ResponseIsRetained | idempotency/middleware.go:62-87 | only its own expiry removes a stored response whose key is nobody's lock key |
| IdempotencyProtocol.RetriesAreReplayed | idempotency/middleware.go:62-87 | a request for the middleware that arrives once a response is stored, before it expires and with no failing read of this key, neither runs the handler nor conflicts: it is replayed |
| IdempotencyProtocol.SettledIsReplayed | idempotency/middleware.go:62-86 | once nobody is between a miss and a store, every request that has yet to read is replayed with the very response stored, until it expires or a read of this key fails |
| IdempotencyProtocol.ReplaysWereExecuted | idempotency/middleware.go:59-86 | every replayed response was recorded with a 2xx by an execution for the same method and path:key, hence the same path and key if paths hold no colon |
| IdempotencyProtocol.StoredAreSuccesses | idempotency/middleware.go:81-86 | in every reachable state only responses with a status from 200 to 299 are stored, about to be stored, or replayed |
| IdempotencyProtocol.ExecutionsAreRuns | idempotency/middleware.go:78-87 | the log of executions holds exactly the requests whose handler has returned, with what it returned, so that no request runs twice |
| IdempotencyProtocol.ConflictMeansHolder | idempotency/middleware.go:67-76 | in any run a 409 means that another request holds the lock, or that the lock key holds the stored response of one that succeeded, or that a SETNX reply or a DEL of this lock was lost |
| IdempotencyProtocol.ConflictExact | idempotency/middleware.go:67-76 | unless a command on this lock was lost: a 409 comes without a holder exactly if the lock key holds a stored response and has none; while the lock has not expired, it comes exactly if there is a holder or such a response |
| IdempotencyLimits.HolderBoundIsTight | idempotency/middleware.go:67-76 | for every number of expiries a run meets the bound on holders |
| IdempotencyLimits.BothExecute | idempotency/middleware.go:62-86 | without any fault, expiry or panic two overlapping requests can both execute and store |
| IdempotencyLimits.AliasLosesResponse | idempotency/middleware.go:59-76 | the unlock of a request whose lock key is another's cache key deletes the stored response, so that a non-overlapping retry executes again |
| IdempotencyLimits.LateRunExact | idempotency/middleware.go:59-87 | a request that arrives late can run again, with no fault, expiry or panic, exactly if its cache key is the lock key of some request |
| IdempotencyLimits.LateRunOnPlainPaths | idempotency/middleware.go:59-87 | on a path without a colon: exactly if its key is another key followed by ":lock" |
| IdempotencyLimits.CanStillRunExact | idempotency/middleware.go:59-87 | from any state, a request that is there and has not run can still run, with no further fault, expiry or panic, exactly if its lock is free or has a holder, and its read has missed or can still miss |
| IdempotencyLimits.NewcomerCanRunExact | idempotency/middleware.go:59-87 | from any state, a request yet to come can run exactly if its lock is free or has a holder, and no response is stored for it that stays |
| IdempotencyLimits.LateRunOfPresentExact | idempotency/middleware.go:62-87 | in every reachable state with a response stored under a key that is nobody's lock key, of the requests there that have not run, exactly those can still run whose read has missed and whose lock is free or has a holder |
| IdempotencyLimits.LostReplyConflicts | idempotency/middleware.go:67-76 | a SETNX that was carried out but whose reply was lost makes the next request conflict with nobody in progress |
| IdempotencyLimits.LostUnlockConflicts | idempotency/middleware.go:67-76 | so does a DEL that was lost, after a handler that failed |
| IdempotencyLimits.WaiterIsShutOut | idempotency/middleware.go:59-86 | without any fault, expiry or panic a lock key can end up holding a stored response, with a request waiting that can only get 409 and nobody in progress |
| IdempotencyLimits.FailedReadRunsAgain | idempotency/middleware.go:62-67 | a failed read falls through to the lock and executes although a response is stored |
| IdempotencyLimits.ColonMixesPaths | idempotency/middleware.go:59-65 | if path:key splits in two ways, one path replays the response of the other |
| IdempotencyStore.RedisClient.Get | idempotency/middleware.go:92-105 | a hit only for a stored response; a lock token, like a failed command, is an error |
| IdempotencyStore.RedisClient.SetNX | idempotency/middleware.go:67 | sets only an absent key, and a failed command may have set it |
| IdempotencyStore.RedisClient.Put | idempotency/middleware.go:107-113 | overwrites whatever is there, a lock included |
| IdempotencyStore.RedisClient.Del | idempotency/middleware.go:76 | removes the key whoever set it |
| IdempotencyStore.Store.constructor | idempotency/middleware.go:38-41 | the prefix defaults to "idempotency:" |
| IdempotencyStore.Store.Serve | idempotency/middleware.go:49-90 | one undisturbed call of the middleware, for every combination of faults and handler results, ends as the corresponding run of the protocol |
| IdempotencyStore.CallInFigures | idempotency/middleware.go:49-90 | where such a call ends and what it leaves, spelled out with the key strings, the methods and the statuses: a response is kept exactly if its status is from 200 to 299 |
| Recorder.Recorder.WriteHeader | idempotency/middleware.go:139-147 | records the status and the first values of the headers then present, and passes the status on |
| Recorder.Recorder.Write | idempotency/middleware.go:149-155 | assumes 200 if no status was set, appends to the record, and passes the bytes on |
| Recorder.OneHeaderOneWrite | idempotency/middleware.go:139-155 | what one header, one WriteHeader with any status and one write put on the wire and in the record |
| Recorder.SilentHandler | idempotency/middleware.go:78-83 | a handler that neither writes nor sets a status answers 200, and nothing is recorded |
| Recorder.RecordAccumulates | idempotency/middleware.go:141-145 | every WriteHeader adds to the recorded headers, later values taking the place of earlier ones |
| Recorder.Replay | idempotency/middleware.go:123-130 | sets every recorded header, the marker, the status and the body, in whatever order the headers are visited |
| Recorder.ReplayInFigures | idempotency/middleware.go:123-130 | the status and body of the record, its headers, "Idempotency-Replay: true", and else what the replaying writer had |
| Recorder.BodyIsConcatenation | idempotency/middleware.go:149-155 | for every handler the recorded body is the concatenation of its writes |
| Recorder.WrittenAdds | idempotency/middleware.go:149-155 | what is written is the writes one after the other, and nothing else |
| Recorder.HeaderIsLastSet | idempotency/middleware.go:139-147 | the header seen has the values it was last set to |
| Recorder.StatusIsLast | idempotency/middleware.go:139-152 | the recorded status is the last one set, 200 if the handler only wrote, 0 if it did neither |
| Recorder.ReplayIsFaithful | idempotency/middleware.go:78-87 | a handler that sets its status once and before writing is replayed with the same status, body and first header values |
| Recorder.SentIsFirstKeptIsLast | idempotency/middleware.go:139-155 | for every handler, status, headers and body sent are settled by the first call that commits, the status recorded is that of the last WriteHeader |
| Recorder.HeadersKept | idempotency/middleware.go:141-145 | a header is recorded exactly if it had a value at some WriteHeader, with the last such value |
| Recorder.ReplayedStatusExact | idempotency/middleware.go:123-155 | a stored response is replayed with the status that was sent exactly if the first call that commits and the last WriteHeader agree |
| Recorder.ReplayedBodyExact | idempotency/middleware.go:123-155 | and with the body that was sent exactly if nothing was written or both statuses treat bodies alike |
| Recorder.ReplayedHeaderExact | idempotency/middleware.go:123-147 | whatever the replaying writer starts with, a header is replayed with all the values that were sent exactly if it was sent with just the one recorded, or is not recorded and the replaying writer has the same |
| Recorder.OneValueIsFaithful | idempotency/middleware.go:123-147 | for a handler that sets its status once and before writing: exactly if it was sent with one value, or with none and the replaying writer has none |
| Recorder.SecondValueIsLost | idempotency/middleware.go:141-145 | of a header with two values only the first is replayed |
| Recorder.StoredExactly | idempotency/middleware.go:81-83 | when a delivered success is not stored, and when something else is stored as a success |
| Recorder.StatusMismatches | idempotency/middleware.go:81-152 | a 500 overwritten by 200 is replayed as 200, and a success after an interim status is not stored |
| Recorder.LateHeaderIsInvented | idempotency/middleware.go:139-147 | a header set between a write and a WriteHeader is replayed although it was never sent |
| Recorder.ImplicitStatusLosesHeaders | idempotency/middleware.go:139-152 | a handler that never sets a status is replayed without any of its headers |
| TenantScope.Scope.Put | tenant/tenant.go:45-49 | replaces the tenant's value and no other |
| TenantScope.Scope.Remove | tenant/tenant.go:72-76 | removes the tenant's value and no other |
| TenantScope.Scope.Read | tenant/tenant.go:52-54 | finds the tenant's value and changes nothing |
| TenantScope.Scope.Publish | tenant/tenant.go:62-69 | under the write lock a value that is there by now wins |
| TenantScope.Scope.Get | tenant/tenant.go:51-70 | undisturbed, the sections of Get add up to the atomic get-or-create |
| TenantScope.AtomicMapLaws | tenant/tenant.go:45-76 | the atomic map: a Get finds what was put or supplied last, fails after a Remove unless its factory gives a pointer, and no call disturbs another tenant |
| TenantScope.ScopeIsLinearizable | tenant/tenant.go:45-76 | in every reachable state the operations that have returned, each once with its reply, run on the atomic map give these replies and the present map; what a Get creates came from its own factory call, nothing is created without a factory, and with one a Get fails only if its call of it did |
| TenantScope.RealTimeOrder | tenant/tenant.go:45-76 | an operation that returned before another was invoked comes before it in that order |
| TenantScope.OnePointer | tenant/tenant.go:51-70 | between writes on a tenant, a Get that succeeds returns the pointer then in the map |
| TenantScope.SamePointer | tenant/tenant.go:51-70 | hence all of them return the same pointer, however often the factory ran |
| Lifecycle.Features.Enable | core/runtime/features.go:14-20 | adds the key and keeps the others |
| Lifecycle.ValidateFeatureMapping | core/bootstrap.go:101-126 | reports the first enabled known integration that is not a feature, and nothing exactly if there is none |
| Lifecycle.KnownIntegrations | core/bootstrap.go:108-120 | which eight integrations are checked, and in which order the first mismatch is found |
| Lifecycle.InitProviders | core/bootstrap.go:56-80 | the loop stops at the first provider that is unsupported or required and failing, or accounts for all |
| Lifecycle.BootstrapWith | core/bootstrap.go:19-99 | the whole pipeline, with its three nil defaults and every way to fail |
| Lifecycle.BootstrapSucceedsExactly | core/bootstrap.go:37-98 | the exact condition under which bootstrap succeeds |
| Lifecycle.BootstrapErrorsExactly | core/bootstrap.go:37-85 | why it fails otherwise: the first thing that is wrong, in the order load, mapping, providers, router |
| Lifecycle.BootstrapGivesUpAt | core/bootstrap.go:59-74 | the provider at which the loop gives up, the error, and the Init calls made until then |
| Lifecycle.BootstrapPartitions | core/bootstrap.go:59-80 | on success the enabled providers are an order-preserving interleaving of initialised and degraded, retained are the initialised, nothing required is degraded, and the health checks are those of initialised providers that have one |
| Lifecycle.Options.ApplyOption | hwhkit/bootstrap.go:29-42 | registering a provider appends it and enables its key; the other options change one thing each |
| Lifecycle.Run | hwhkit/bootstrap.go:44-50 | the options applied in order feed the pipeline; the last loader wins |
| Lifecycle.ProvidersInOrder | hwhkit/bootstrap.go:29-34 | providers are registered in the order of their options, and none comes from anywhere else |
| Lifecycle.RegisteredFirstInitialisedFirst | hwhkit/bootstrap.go:44-50 | of two enabled providers the one registered first is initialised first |
| Lifecycle.InitsInOrder | core/bootstrap.go:59-80 | each enabled provider gets one Init, after those of the enabled ones before it |
| Lifecycle.FilterInOrder | core/bootstrap.go:78-79 | the lists of initialised, degraded and retained providers keep that order |
| Lifecycle.LastLoaderWins | hwhkit/bootstrap.go:36-38 | the loader of the last WithLoader is used, unless that is nil or there is none |
| Lifecycle.FeaturesExactly | hwhkit/bootstrap.go:29-42 | enabled are exactly the keys of registered providers and the named ones |
| Lifecycle.RunNeverMismatchesAProvider | hwhkit/bootstrap.go:29-34 | through Run the feature mismatch inside the loop cannot happen |
| Lifecycle.RunAccountsForEveryIntegration | hwhkit/bootstrap.go:29-50 | without WithFeature every enabled known integration ends up initialised or degraded |
| Lifecycle.ServeUntilSignal | hwhkit/production/server.go:80-107 | cancel, drain, then one Shutdown per retained provider in reverse order, whatever fails |
| Lifecycle.LifecycleIsBracketed | hwhkit/production/server.go:93-104 | after m shutdowns exactly the providers initialised before the last m are up, so each finds its predecessors up |
| Lifecycle.RunAndServe | hwhkit/bootstrap.go:52-67 | on the signal path the run ends with nothing up; a failed bootstrap shuts nothing down |
| SseStream.StreamIsParsedPrefix | integration/llm/openai_compat.go:191-225 | what is delivered are the chunks of the data lines before the first [DONE], in order, then the scanner's error where it is reported |
| SseStream.OneDataLine | integration/llm/openai_compat.go:208-223 | what one data line delivers on either kind of stream, the text before the reason to finish |
| SseStream.OtherLines | integration/llm/openai_compat.go:196-203 | other lines deliver nothing, "data: [DONE]" ends the stream, and the end of the body delivers the error where it is reported |
| SseStream.StreamAdds | integration/llm/anthropic.go:196-237 | without [DONE] the streams of two stretches of lines follow each other |
| SseStream.OpenAIHidesScanErrors | integration/llm/openai_compat.go:191-225 | an OpenAI-compatible stream is the same whether or not the scanner failed |
| SseStream.ScanErrorShowsExactly | integration/llm/anthropic.go:196-237 | the scanner's error shows in the stream exactly if the backend is the Anthropic one and no [DONE] came before |
| SseStream.PumpOpenAI | integration/llm/openai_compat.go:191-225 | the pump sends exactly that stream |
| SseStream.PumpAnthropic | integration/llm/anthropic.go:196-237 | the Anthropic pump sends exactly its stream, with the scanner's error at the end |
| SseStream.AlwaysGood | integration/llm/openai_compat.go:182-188 | for every schedule nothing is lost, repeated or reordered, at most 16 chunks are buffered, and at the close all has been received |
| SseStream.NoDeadlock | integration/llm/anthropic.go:187-193 | until the reader has seen the close one side can move |
| SseStream.MovesAreBounded | integration/llm/anthropic.go:187-193 | every schedule makes at most lines + 2 * chunks + 3 moves |
| SseStream.FinishedSchedulesDeliver | integration/llm/openai_compat.go:182-188 | a schedule in which nobody can move any more has delivered the whole stream and the close |
| SseStream.AbandonedPumpEndsExactly | integration/llm/openai_compat.go:182-188 | when the reader stops, the pump ends exactly if the rest of the stream fits in the channel |
| AnthropicMessages.SplitSystem | integration/llm/anthropic.go:70-90 | system texts joined by blank lines, without empty ones at the front; the other messages in order with roles collapsed |
| AnthropicMessages.SystemInOrder | integration/llm/anthropic.go:74-80 | the k-th system text is that of the system message with k before it |
| AnthropicMessages.WireInOrder | integration/llm/anthropic.go:81-87 | the k-th wire message has the content of the k-th other message, and its role is the assistant's if that is, and the user's if not |
| AnthropicMessages.JoinedAdds | integration/llm/anthropic.go:75-79 | texts are joined by a blank line |
| AnthropicMessages.DropsEmptyFront | integration/llm/anthropic.go:75-79 | what is dropped are the empty texts at the front |
| AnthropicMessages.SplitKeepsAll | integration/llm/anthropic.go:70-90 | every message goes to exactly one side, the system ones with their text |
| AnthropicMessages.SystemTextIsWholeExact | integration/llm/anthropic.go:74-80 | the system text is all system messages joined exactly if there is at most one or the first is not empty |
| EnvPath.RoundTripExact | config/loader.go:72-76 | encoding a path of [a-z0-9_] segments and decoding it gives the dotted path back exactly if no segment holds "__" and none but the last ends in "_" |
| EnvPath.DecodeInFigures | config/loader.go:72-76 | what has no "__" is lowered letter by letter, and the first "__" is a dot with the rest decoded after it |
| EnvPath.EncodeSegment | config/loader.go:72-76 | the variable of one segment is the prefix and the segment in upper case |
| EnvPath.EncodeAdds | config/loader.go:72-76 | variables are joined by "__", and dotted paths by dots |
| EnvPath.EncodingInjective | config/loader.go:72-76 | no two such paths share a variable |
| Itoa.WriteDigits | hwhkit/middleware/cors.go:66-76 | the digit loop stays within the 20-byte buffer, leaving room for a sign, and writes the digits of every positive 64-bit number |
| Itoa.Itoa | hwhkit/middleware/cors.go:62-82 | the result is a numeral without leading zeros that parses to n, exactly unless n is the least 64-bit integer, for which it is "-" |
| Itoa.NumeralsUnique | hwhkit/middleware/cors.go:62-82 | a number has one such numeral, so the result is determined |
| Itoa.NumeralsInFigures | hwhkit/middleware/cors.go:62-82 | what a numeral denotes, digit by digit, and which strings are none |

## Left out

- Floating point in the Lua script, and the rounding of numbers stored in Redis hashes: the model is exact over scaled
  integers.
- One clock: the clock passed to the script and the clock by which Redis expires keys are taken to be the same, and a
  key may be dropped from the instant its deadline is reached.
- RateLimiter.Limiter.constructor: limit and window are taken to be at least 1; a window below one millisecond or a
  limit of zero makes the script divide by zero or by infinity.
- TTLs of locks and responses: an entry may expire at any time, so that no bound on how long a handler runs is assumed.
- IdempotencyStore.Store.Serve: one call at a time; what happens under interference is what IdempotencyProtocol is
  about.
- Retries of commands inside the Redis client, and JSON encoding of stored responses (taken to be the identity; decoding
  a lock token as a response is an error, as in the code).
- Recorder: header names are taken to be canonical already, and the net/http writer under the recorder is modelled by
  its documented rules (first final status commits; interim statuses do not; no body with 204 and 304).
- Lifecycle.RunAndServe: logging, tracing, metrics, the HTTP server and the listen-failure path, on which no provider is
  shut down.
- Lifecycle.RunAccountsForEveryIntegration: assumes that the provider of a known integration is enabled whenever the
  configuration enables it, as the eight integration modules do.
- Lifecycle.BootstrapWith: what a loader does with the bootstrap configuration is a parameter.
- Answers of provider methods are inputs, one per registration; that Init may depend on what earlier providers left in
  the application context shows only in the order, which is proved.
- SseStream: decoding a payload is a parameter; the scanner's line limit appears as the error that ends the body.
- TenantScope: the type parameter is a pointer; the extractor middleware and the context functions would add only easy
  members.
- Layering of configuration sources, struct accessors, health probing, circuit breaker, JWT, scheduler internals, the
  other integrations, CLI, templates, and the middleware other than the decimal formatting.
