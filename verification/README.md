# Coordination model of go-llm-gateway

A Dafny model of the parts of the gateway in which requests meet: rate limiting, routing and failover,
caching with request coalescing, auditing and daily quotas, and the tables that identify callers. Each part
keeps the source's branches, constants and edge cases. Objects that the source updates in place are classes
whose methods are proved against a specification function; what several goroutines do together is a state
machine with one label per step, and its theorems hold for every enabled sequence of labels.

## Reading order

| modules | what they hold |
|---|---|
| `LocalLimiter`, `TokenSupply`, `KeyedLimiter`, `RateLimit`, `RateForwarding`, `RateAdvice` | the local token bucket characterised by suffix windows, its optimality, isolation of keys, the handler, what it forwards over whole runs, and when its advice to retry can be relied on |
| `SingleFlight`, `Coalescer`, `CoalescerRuns`, `CoalescerRefinement`, `CoalescerObject`, `Recorded` | the single-flight protocol with every write a step of its own, its invariant, its refinement to atomic steps, its progress; the object and the copies it hands out |
| `CacheKey`, `Cache`, `CacheSoundness`, `CacheServes`, `CacheBilling`, `CacheAccounts`, `CacheProgress`, `CacheProtocol` | the cached path over whole runs: soundness of hits, when a hit is certain and what is stored, transparency, conservation of usage down to each caller's line in the usage table, progress; and the same path over the written single-flight protocol |
| `Usage`, `UsageTotals`, `Audit`, `Quota`, `QuotaGate`, `QuotaTight`, `QuotaGoverned`, `QuotaConfig` | the usage table, the audit queue and its workers, the quota gate as the handler asks it, its exact overshoot, and exactly which clients and configurations it holds for |
| `Failover`, `Routing`, `Breaker` | the retry loops as a linear search, canonical candidate order, double-checked locking |
| `Text`, `Redact`, `Config`, `Registry` | tokens, fingerprints, validated configuration and the identity tables |
| `StreamUsage`, `StreamCuts` | usage taken from a stream, and exactly which cuts into chunks lose it |
| `Sums`, `Wire` | sums over sequences; bytes and responses |

## What does not hold of the code

Each is a lemma with the failing family, next to the exact condition under which the property does hold.

- The advice to retry after one second is honest in a run exactly when the bucket's rate, that of the first
  look-up under its key, is at least one (`RateAdvice.AdviceIsHonestIff`), and in all runs exactly when no entry
  that shares the caller's fingerprint has a `rate_limit_qps` strictly between 0 and 1, which truncation turns into
  no rate (`RateAdvice.HonestForIff`). Otherwise whoever shares the bucket is refused for good once its burst is
  spent (`RateAdvice.FractionalRateStarves`), and validation accepts a configuration where the one refused has a
  whole rate (`RateAdvice.SharedBucketStarves`). When Redis answers, the advice covers the wait it reports exactly
  when that is a whole number of seconds or none (`RateLimit.RedisAdviceCoversIff`).
- A daily quota's overshoot bound, and the closing of its gate, hold in all runs exactly when everyone billed to a
  slot is gated by it within its limit (`QuotaGoverned.BoundedIff`, `QuotaGoverned.ClosingIff`): on a configuration,
  when every entry that shares the fingerprint has a limit no larger, and no header of a token with inner white
  space hashes to it (`QuotaConfig.QuotaHoldsIff`). Validation accepts configurations where they fail
  (`QuotaConfig.LegacyTokenEvadesQuota`). They hold wherever all callers are billed to themselves
  (`QuotaConfig.QuotaHoldsWhenAttributed`).
- A request is billed to the identity that authentication resolved exactly when its token holds no white space and
  no later entry shares its fingerprint (`Registry.AttributionRoundTrip`). Validation accepts configurations that
  fail this: where a token is listed before the same token behind `Bearer `, its caller authenticates as the first
  entry and is billed to the second (`Registry.SchemeWordMisattributes`). All callers are billed to themselves
  exactly when no token holds white space and no two entries share a fingerprint (`Registry.AllAttributedIff`).
- Cache keys are injective for providers and models without a NUL character, and every route with one collides
  (`CacheKey.PreimageInjective`, `CacheKey.NulCollides`).
- The usage kept of a stream is the last one the whole stream reports exactly when nothing harmful is lost of the
  last line to report anything, whole or in the pieces the recorder hears (`StreamCuts.KeptIffHarmless`); it hears
  only chunks that contain the literal `"usage":`. An event that reports without spelling that out is dropped even
  uncut (`StreamCuts.MarkerlessEventIsDropped`). Where no reporting chunk lacks the marker, cuts at line boundaries
  always pass (`StreamCuts.ChunkingIsInvisible`), and one cut whose halves report nothing passes exactly when the
  line reports nothing, a later line reports, or the last usage before it is the same
  (`StreamCuts.OneCutAgreesIff`). A lone event cut in two is lost (`StreamCuts.MidLineCutLosesUsage`).

## Assumptions

- A coalesced function returns; a panic in it would leave its entry in the map. A response is nil when the
  error is not, and an upstream response always has a body to close.
- Clocks are parameters, and the readings given to one bucket do not decrease. Limiter rates are not negative, as
  `RateIsNat` shows of the only caller. Days do not come back.
- Times, rates and token levels are reals; counters are unbounded integers. Strings are sequences of characters.
- SHA-256 and the JSON decoders are arbitrary functions. Where two things must hash differently the theorem says so.
- A fingerprint is kept as its digest and its length, and rendered as the source does where the text matters.
- The router has attached its context to every request that reaches the cache.
- Where the text of a limit key matters, a digest is sixteen characters long, as eight bytes in hexadecimal are.

## Model

| member | source | states |
|---|---|---|
| LocalLimiter.LocalTokenBucket.constructor | internal/middleware/local_limiter.go:27-35 | a new bucket is full and has answered nothing |
| LocalLimiter.LocalTokenBucket.Allow | internal/middleware/local_limiter.go:37-56 | admits a call iff every suffix window of the calls answered so far, with this one, stays within burst + rate * length; the answer joins the history |
| LocalLimiter.LevelIsLeastRoom | internal/middleware/local_limiter.go:41-48 | the token count kept by clamping and subtracting is the least room left over all suffix windows, and some window attains it |
| LocalLimiter.AnswerExtendsTrace | internal/middleware/local_limiter.go:46-55 | comparing the count with 1 decides the window bound, and the answer extends the trace |
| TokenSupply.WindowBound | internal/middleware/local_limiter.go:37-56 | any window of a bucket's calls holds at most burst + rate * length admissions |
| TokenSupply.BucketAdmitsMost | internal/middleware/local_limiter.go:37-56 | no other policy that respects the window bound admits more of the same calls |
| TokenSupply.RefusalsAreInvisible | internal/middleware/local_limiter.go:50-52 | deleting a refused call from a trace changes no other answer |
| TokenSupply.RetryAfterOneSecond | internal/middleware/local_limiter.go:37-56 | a refused caller who waits a second, nothing having been admitted since, is admitted iff the rate is at least 1 |
| KeyedLimiter.KeysAreIsolated | internal/middleware/local_limiter.go:58-68 | however the look-ups and answers of different callers interleave, a key's account is that of a limiter on which only the key's own sections run, with the rate and burst of its first look-up |
| KeyedLimiter.EveryKeyIsABucket | internal/middleware/local_limiter.go:58-68 | each key's answers form the trace of a bucket of its own |
| KeyedLimiter.KeyedLocalLimiter.BucketFor | internal/middleware/local_limiter.go:59-65 | finds the key's bucket or makes one, leaving every other bucket alone |
| KeyedLimiter.KeyedLocalLimiter.AllowFrom | internal/middleware/local_limiter.go:67 | the key's bucket answers and only its account grows |
| KeyedLimiter.KeyedLocalLimiter.Allow | internal/middleware/local_limiter.go:58-68 | a look-up and then the answer of the key's own bucket, changing no other account |
| RateLimit.EffectiveLimits | internal/middleware/ratelimit.go:57-74 | the rate and burst after truncation, defaults and the token's own settings |
| RateLimit.RateIsNat | internal/middleware/ratelimit.go:57-74 | the burst is at least 1 and the rate not negative; the rate is zero exactly when the token's setting lies strictly between 0 and 1 |
| RateLimit.SettingsMean | internal/middleware/ratelimit.go:57-74 | a token's own positive rate and burst come before the configured ones, which come before 1 and the rate; rates are rounded down |
| RateLimit.KeyMeans | internal/middleware/ratelimit.go:41-53 | a caller with a token is limited under its fingerprint, anyone else under the address |
| RateLimit.Handle | internal/middleware/ratelimit.go:55-157 | a caller whose day's total has reached a positive limit is turned away and touches no limiter; any other is forwarded iff Redis, when it answers, allows it, or else the key's local bucket permits one more call; refused otherwise, with the stated limits and advice |
| RateLimit.DecisionMeans | internal/middleware/ratelimit.go:140-156 | past the quota gate a request goes on iff the limiter asked allows it, and a refusal carries the limiter's advice |
| RateForwarding.ForwardedAreAdmitted | internal/middleware/ratelimit.go:110-156 | over any interleaving, the requests forwarded on a key's fallback bucket are the admissions of its account |
| RateForwarding.ForwardingIsBounded | internal/middleware/ratelimit.go:110-156 | so any window of them forwards at most burst + rate * length, with the settings of the request that looked the key up first |
| RateAdvice.RetryHonouredIff | internal/middleware/ratelimit.go:140-149 | on one account with a whole rate, the advised retry is admitted iff the rate is at least one |
| RateAdvice.AccountIsOfFirst | internal/middleware/local_limiter.go:59-65 | a bucket has the rate and burst of the first look-up under its key |
| RateAdvice.AdviceIsHonestIff | internal/middleware/ratelimit.go:110-149 | in any interleaving, whoever shares the key, the advised one-second retry is admitted iff the bucket's rate is at least one |
| RateAdvice.HonestIff | internal/middleware/ratelimit.go:110-149 | the advice is honest in all runs iff no request with the key has a setting strictly between 0 and 1 |
| RateAdvice.HonestForIff | internal/middleware/ratelimit.go:41-53 | on a configuration, iff no entry that shares the fingerprint has such a setting |
| RateAdvice.SpentBucketStarves | internal/middleware/local_limiter.go:37-68 | a bucket first looked up without a rate refuses whoever comes after its burst, after any wait |
| RateAdvice.FractionalRateStarves | internal/middleware/ratelimit.go:57-74 | a request with such a setting starves every request that shares its key |
| RateAdvice.SharedBucketStarves | internal/middleware/ratelimit.go:57-74 | an accepted configuration where a caller with a whole rate is refused for good by another entry's setting |
| RateLimit.RedisAdviceCoversIff | internal/middleware/ratelimit.go:107-109 | the advice covers the wait Redis reports iff that is a whole number of seconds or none; a wait below a second becomes no wait |
| RateLimit.TokenKeysAreApart | internal/middleware/ratelimit.go:41-53 | two fingerprints give the same limit key only if they are equal |
| RateLimit.TokenAndIpKeysAreApart | internal/middleware/ratelimit.go:41-53 | a caller known by token never shares a limit with one known by address |
| Coalescer.InvStep | internal/middleware/cache.go:136-167 | every step of the locked map, call objects and channels keeps the invariant that fixes each object's contents by its leader's progress |
| CoalescerRuns.MapHoldsLiveLeaders | internal/middleware/cache.go:141-165 | the map's entries are those of leaders that have not deleted theirs, at most one a key |
| CoalescerRuns.ClosedAtMostOnce | internal/middleware/cache.go:159-164 | the mutex has one holder, no two leaders of a key are registered at once, and no done channel is closed twice |
| CoalescerRuns.SharedIsPublished | internal/middleware/cache.go:145-147 | a waiter that woke reads only what its leader published, both fields written |
| CoalescerRuns.ClosedIsFrozen | internal/middleware/cache.go:160-162 | a call object is never written after its channel is closed |
| CoalescerRuns.OutcomeWasReturned | internal/middleware/cache.go:136-167 | every result, led or shared, is one that a function returned to a leader of the same key |
| CoalescerRuns.AsIfCalledDirectly | internal/middleware/cache.go:136-167 | with an upstream that is a function of the key, coalescing returns what a direct call would |
| CoalescerRuns.OnlyOwnCancellation | internal/middleware/cache.go:148-150 | if executions never fail, the only error a caller can see is its own cancellation |
| CoalescerRuns.JoinedBeforePublishing | internal/middleware/cache.go:141-164 | whoever shares an execution joined before it was published, so nothing stale is shared |
| CoalescerRuns.RunsAreBounded | internal/middleware/cache.go:136-167 | no schedule is longer than fifteen steps a caller |
| CoalescerRuns.NeverStuck | internal/middleware/cache.go:136-167 | while a call is unfinished some caller can step, without any context being cancelled |
| CoalescerRefinement.StepRefines | internal/middleware/cache.go:136-167 | each step of the protocol is one atomic single-flight step or none |
| CoalescerRefinement.RunRefines | internal/middleware/cache.go:136-167 | every run of the protocol is a run of atomic single flight from its initial state that ends in the same abstract state |
| CoalescerObject.ResponseCoalescer.Enter | internal/middleware/cache.go:141-156 | the first section joins the registered call or registers a new one, as the atomic step does |
| CoalescerObject.ResponseCoalescer.Publish | internal/middleware/cache.go:159-164 | the last section writes the result, closes, and takes the leader's own entry, which is still registered, out |
| CoalescerObject.ResponseCoalescer.Receive | internal/middleware/cache.go:146-147 | a waiter reads the very result its leader published |
| Recorded.CopyHeaders | internal/middleware/cache.go:503-509 | the copying loop, in whatever order the map yields its keys, overlays the source on the destination |
| Recorded.OverlaidIs | internal/middleware/cache.go:503-509 | every header of the source replaces the destination's, no other changes, and none is added |
| Recorded.CloneRecordedResponse | internal/middleware/cache.go:520-529 | the copy has equal status, headers and body and shares no memory with the original; nil stays nil |
| CacheKey.PreimageInjective | internal/middleware/cache.go:449-462 | routes whose provider and model hold no NUL have distinct key preimages |
| CacheKey.NulCollides | internal/middleware/cache.go:449-462 | a route with a NUL in its provider or model shares its preimage with another route |
| CacheSoundness.InvStep | internal/middleware/cache.go:233-335 | every step, with expiry, failures and late stores, keeps each stored and each pending body one that a 200 execution gave under its key |
| CacheSoundness.HitsAreSound | internal/middleware/cache.go:233-335 | in any run from an empty cache a hit is a non-empty body within the limit from a 200 execution for the same first candidate, model and body |
| CacheSoundness.AnswersAreSound | internal/middleware/cache.go:276-319 | a miss or shared answer is an execution for the very same route |
| CacheSoundness.CachingIsTransparent | internal/middleware/cache.go:233-335 | over a deterministic upstream, status and body are the upstream's own, cached, shared or not |
| CacheServes.StoredIsServed | internal/middleware/cache.go:236-251 | in any run, once a non-empty body is stored under a route's key and the entry neither expires nor is overwritten, every request for the route that finds Redis working is answered with that body, adds no execution, and pushes one record without tokens |
| CacheServes.AnswersAreFinal | internal/middleware/cache.go:246-319 | a request once answered stays as it was answered |
| CacheServes.AskedWhen | internal/middleware/cache.go:234-273 | whether a request may store its answer was settled when it asked Redis: iff Redis worked and did not hold the key |
| CacheServes.MissIsStoredIff | internal/middleware/cache.go:276-335 | in any run, an answer from the request's own execution is audited and leaves a store of its body iff the status is 200, the body is within the limit, and Redis, when asked, worked and did not hold the key; a shared answer pushes one record without tokens and stores nothing, an abandoned wait does neither |
| CacheBilling.ExecutionsArePlacedOnce | internal/middleware/cache.go:571-662 | weighed in any way by answer and caller, executions are those still held, waiting to be decoded, undecodable and emitted: each in one place, emitted at most once |
| CacheBilling.BillingIsConserved | internal/middleware/cache.go:236-336 | weighed in any way by caller, the usage reported by executions is found, to the token, in pending answers, queue, workers, drops and the workers' entries, which make up the table; hits and shared answers add nothing |
| CacheAccounts.TableHoldsEntries | internal/audit/aduitor.go:40-62 | over all days the usage table holds all tokens of a registered caller's entries and none of any other's |
| CacheAccounts.CallersAreChargedExactly | internal/middleware/cache.go:236-336 | the tokens of the executions made for a caller are those on their way, those dropped, those the usage table holds for the caller, and, for an unregistered one, those attributed to nobody |
| CacheProgress.EveryRunCanSettle | internal/middleware/cache.go:236-336 | from any point of any run, steps of the gateway's own answer every request, finish every store, decode every answer and account for every record |
| CacheProgress.StepsAreBounded | internal/middleware/cache.go:236-336 | however it is scheduled, and whatever expires, fails or is cancelled, the gateway takes at most 49 steps a request |
| CacheProgress.SettledIsCharged | internal/middleware/cache.go:571-662 | once a run has settled, the tokens of a registered caller's executions are those in the usage table and those dropped on a full queue |
| CacheProtocol.StepMaps | internal/middleware/cache.go:136-336 | each step of the cached path over the written protocol is a step over atomic single flight or none |
| CacheProtocol.RunMaps | internal/middleware/cache.go:136-336 | every run over the written protocol is one over atomic single flight with the same requests, answers, cache and logs |
| CacheProtocol.HitsAreSound | internal/middleware/cache.go:136-336 | hits are sound with the locked map, call objects and channels in place |
| CacheProtocol.CachingIsTransparent | internal/middleware/cache.go:136-336 | over a deterministic upstream neither the cache nor the protocol shows in status or body |
| CacheBilling.MissesAreExecutions | internal/middleware/cache.go:276-336 | executions are, one for one, the answers marked as misses and those still held |
| Usage.UsageSnapshot.Add | internal/tenant/usage.go:80-94 | one record's effect on a snapshot, remaining tokens clamped at zero |
| Usage.UsageTable.TodayUsage | internal/tenant/usage.go:32-45 | the total of the caller's slot of the day, zero and not found without one |
| Usage.UsageTable.IsDailyQuotaExceeded | internal/tenant/usage.go:47-53 | exceeded exactly when there is a positive limit and the day's total of the caller's slot has reached it |
| Usage.UsageTable.RecordUsage | internal/tenant/usage.go:55-96 | the table afterwards is the specified one: one slot changed or made, none without a fingerprint |
| UsageTotals.TableIsTally | internal/tenant/usage.go:55-96 | after any entries a slot exists iff one fell on it, and holds their sums with max(0, limit - total) remaining |
| UsageTotals.SnapshotIs | internal/tenant/usage.go:55-96 | field by field: the names of the registered identity, the sums of requests, prompt, completion and total tokens and cache hits, and what the limit leaves of it |
| UsageTotals.OrderIndependent | internal/tenant/usage.go:55-96 | permuting the entries leaves the same table |
| UsageTotals.TotalIsSum | internal/tenant/usage.go:32-45 | the recorded total is the sum of the entries' tokens for registered callers, zero for others |
| Audit.RunConserves | internal/audit/aduitor.go:32-80 | over any run the queue stays within 10000 and the pushed records are those queued, with a worker, accounted for and dropped |
| Audit.TableFollowsEntries | internal/audit/aduitor.go:36-69 | the table is always what the workers' entries, in their order, leave |
| Audit.ScheduleIndependent | internal/audit/aduitor.go:36-69 | on one day, any two schedules that push the same records, drop none and drain leave the same table |
| Audit.NoDropsWithinCapacity | internal/audit/aduitor.go:71-80 | a run that pushes no more than the queue holds drops nothing |
| Audit.PipelineHolds | internal/audit/aduitor.go:32-37 | in every run the queue holds at most ten thousand records beside three workers, and none is dropped while no more than ten thousand have been pushed |
| Audit.QueueIsFirstInFirstOut | internal/audit/aduitor.go:39-80 | while nothing is dropped the queue is the latest records pushed, in their order |
| Quota.InvStep | internal/middleware/ratelimit.go:76-87 | where everyone billed to a slot is gated by it within its limit, every admission, push, drop and worker step keeps room for all that is in flight |
| Quota.OvershootBound | internal/middleware/ratelimit.go:66-87 | then, with at most n unrecorded requests of at most m tokens each, no day's total of the slot exceeds limit - 1 + n * m |
| Quota.StaysShut | internal/tenant/usage.go:47-53 | a client's gate, once shut, stays shut for the rest of the day |
| Quota.StaysClosed | internal/tenant/usage.go:47-53 | where everyone billed to a slot is gated by it within its limit, none of them gets through once the limit is used up, for the rest of the day |
| QuotaGate.GateIsSum | internal/tenant/usage.go:47-53 | on the table that any entries leave, the handler finds a caller over quota iff a positive limit is reached by the sum of the day's entries under its fingerprint, if registered |
| QuotaGate.HandlerAsksThisGate | internal/middleware/ratelimit.go:76-87 | at any point of any run the handler's gate is the gate of the quota theorems, and shut iff the day's entries reach a positive limit; a caller is admitted iff it is open |
| QuotaTight.BoundIsReached | internal/middleware/ratelimit.go:66-87 | for a client gated by the slot it is billed to, some run reaches the bound exactly, for every positive limit, n and m, and for m zero where the limit is one |
| QuotaTight.Escape | internal/middleware/ratelimit.go:66-87 | a client gated by another slot, by a larger limit or by none brings the slot to any total up to one past its limit, one token at a time |
| QuotaGoverned.BoundedIff | internal/middleware/ratelimit.go:66-87 | the bound holds in all runs iff everyone billed to the slot is gated by it within its limit |
| QuotaGoverned.ClosingIff | internal/tenant/usage.go:47-53 | so does the closing of the gate |
| QuotaConfig.GovernedIff | internal/middleware/auth.go:54-64 | on a configuration that condition is: every sharer of the fingerprint has a limit no larger, and no header of a token with inner white space hashes to it |
| QuotaConfig.QuotaHoldsIff | internal/middleware/ratelimit.go:66-87 | for an entry with a limit that accounting finds under its fingerprint, bound and closing hold in all runs iff that condition holds |
| QuotaConfig.QuotaHoldsWhenAttributed | internal/audit/aduitor.go:41-60 | where every caller is billed to themselves every daily limit holds |
| QuotaConfig.LegacyTokenEvadesQuota | internal/tenant/registry.go:57-101 | an accepted configuration on which neither bound nor closing holds |
| Failover.GatewayContext.SetActiveProvider | internal/model/openai.go:37-41 | the context names the provider and nothing else of it changes |
| Failover.ShouldRetryResponse | internal/proxy/proxy.go:279-292 | retries errors, missing responses and exactly the configured statuses |
| Failover.BudgetIs | internal/proxy/proxy.go:294-299 | a provider's own positive retry count comes before the default, with one attempt beside the retries and none for a negative default |
| Failover.PlanIs | internal/proxy/proxy.go:108-113 | each candidate is planned for one attempt more than its retries, after those before it |
| Failover.NoCandidatesIff | internal/proxy/proxy.go:90-100 | the request is refused for want of candidates iff there is none |
| Failover.AttemptCandidate | internal/proxy/proxy.go:112-187 | the inner loop stops at the first final outcome of the candidate's window of the plan, or exhausts it |
| Failover.TryCandidates | internal/proxy/proxy.go:108-192 | the outer loop ends at the candidate that settles the request, or past the last, with every counter and the context's failovers as the plan has them |
| Failover.ServeHTTP | internal/proxy/proxy.go:87-212 | the nested loops answer as a linear search of the flattened plan, with its retries, failovers, pauses, closings and attempted names |
| Failover.UnavailableIff | internal/proxy/proxy.go:195-211 | 503 is answered iff every planned attempt could be built and failed, had no response or had one of the configured statuses; retries and failovers are then those of the whole plan, and the error told is the last attempt's |
| Failover.ServedIsFirst | internal/proxy/proxy.go:162-187 | what is served is the first response of the plan with a status not configured as retryable, from the candidate listed there, every earlier attempt having been built and retried |
| Failover.FirstDecides | internal/proxy/proxy.go:112-187 | conversely, the first planned attempt that is not retried decides: its response is served, or the request fails where it cannot be built |
| Failover.EveryCandidateTried | internal/proxy/proxy.go:108-112 | with the loaded defaults no candidate is given up before it was tried |
| Failover.PausesAreRetriesLessFailovers | internal/proxy/proxy.go:145-152 | on a served or 503 exit the pauses are the retries less the failovers |
| Failover.ClosedExactlyOnce | internal/proxy/proxy.go:140-142 | whatever the exit, the bodies closed are those of the attempts made that received one, each once and in order |
| Routing.MatchProviders | internal/middleware/router.go:86-113 | the loops collect each provider listing the model once; no route of the result comes after one with a larger priority number, or with the same and a larger name |
| Routing.CandidatesAreExact | internal/middleware/router.go:86-113 | the candidates are exactly the providers that list the model, under their own settings, by rising priority number and then name |
| Routing.PreferredFirst | internal/middleware/router.go:106-111 | of two configured providers that list the model the one with the smaller priority number, or the same and the smaller name, comes first, each with its own name, URL, key, priority and retries |
| Routing.SortIsStable | internal/middleware/router.go:106-111 | routes with the same priority and name stay in the order of the configuration |
| Text.LessIff | internal/middleware/router.go:108 | one name is less than another iff it is smaller at their first difference or its proper prefix |
| Routing.OrderIsCanonical | internal/middleware/router.go:86-113 | permuting the configured providers changes no routing |
| Routing.IncreasingIsUnique | internal/middleware/router.go:106-111 | given routes have one increasing order |
| Breaker.InvStep | internal/proxy/transport.go:26-82 | every step of the double-checked lookup keeps each made breaker in the map or with its maker under the lock |
| Breaker.OneBreakerPerKey | internal/proxy/transport.go:26-82 | in every interleaving at most one breaker is made for a key |
| Breaker.SameBreaker | internal/proxy/transport.go:26-82 | two callers get the same breaker iff they asked for the same key |
| Breaker.MapOnlyGrows | internal/proxy/transport.go:77-81 | an entry is never replaced or removed |
| Breaker.WriterIsAlone | internal/proxy/transport.go:27-35 | whoever may write the map is alone with it |
| Breaker.NeverStuck | internal/proxy/transport.go:26-82 | until every caller has its breaker some caller can move |
| Breaker.RunsAreBounded | internal/proxy/transport.go:26-82 | no run is longer than seven steps a caller |
| Redact.NormalizedHeader | pkg/redact/token.go:11-24 | normalising an accepted header gives the token if it holds no white space, and the whole header otherwise |
| Redact.NormalizedMeans | pkg/redact/token.go:11-24 | a scheme word in any letter case is dropped before exactly one word; all other text is only trimmed |
| Redact.ExtractedIff | internal/middleware/auth.go:32-46 | a token is taken iff the trimmed header begins with the scheme word in this spelling and a space; it is then never empty |
| Redact.FingerprintRoundTrip | internal/middleware/cache.go:200 | the cache's fingerprint of a header is the registry's of its token iff the token holds no white space, whatever the hash |
| Redact.SchemeWordIsDropped | pkg/redact/token.go:17-20 | a bare token and the same token behind the scheme word share a fingerprint |
| Config.UniqueNonEmpty | internal/config/config.go:637-655 | the trimmed, non-empty items, each at its first place |
| Config.UniqueIsTidy | internal/config/config.go:637-655 | no item of the result repeats, is empty, or has white space at an end |
| Config.UniqueKeepsItems | internal/config/config.go:637-655 | the result holds exactly the trimmed, non-empty items |
| Config.UniqueIsIdempotent | internal/config/config.go:241 | the second pass, after resolution, changes nothing |
| Config.MergeKeepsBase | internal/config/config.go:657-659 | a merge keeps the base list in front and in order |
| Config.ResolveStructuredTokens | internal/config/config.go:295-314 | reports the first token that cannot be resolved, with its reason; otherwise every enabled token takes its trimmed value from a set variable |
| Config.ResolvableIff | internal/config/config.go:295-314 | an enabled token resolves iff it has no inline value and names a variable that is set and not blank |
| Config.ResolveProblemIs | internal/config/config.go:295-314 | the reason reported is true of the token |
| Config.ResolvedAreTidy | internal/config/config.go:295-314 | resolved enabled tokens carry non-empty, trimmed values |
| Config.ValidateTokenCatalog | internal/config/config.go:536-578 | reports the first offending token with its reason, repeated valid tokens first, and nothing iff the catalog is accepted |
| Config.AcceptedIff | internal/config/config.go:536-578 | a catalog is accepted iff its valid tokens differ, and enabled tokens have names, values and limits in range, repeat no name or value, and none is a valid token |
| Config.ItemErrorIs | internal/config/config.go:551-576 | the reason reported is true of the token |
| Config.NormalizedNeverRepeats | internal/config/config.go:539-548 | on a normalised list the duplicate error for valid tokens cannot be reported |
| Config.ValidateProviders | internal/config/config.go:505-533 | reports the first offending provider, and nothing only if all names are distinct |
| Config.ProvidersPassIff | internal/config/config.go:505-533 | providers pass iff their names are distinct and each has a name, a usable URL, models, a positive priority and no negative retry count |
| Config.ProviderProblemIs | internal/config/config.go:505-533 | the reason reported is true of the provider |
| Config.ApplyUpstreamDefaults | internal/config/config.go:392-431 | negative budgets become zero; missing statuses, durations, breaker settings and priorities their defaults; nothing else changes |
| Config.DefaultsFillGaps | internal/config/config.go:392-421 | all upstream settings are in range afterwards, settings in range are kept, and a second application changes nothing |
| Config.DefaultValues | internal/config/config.go:392-431 | each setting that is missing or out of range gets its documented value; a provider keeps all but its priority and retries |
| Config.CandidatesHaveBudgets | internal/config/config.go:423-430 | whatever a model is routed to after loading can be attempted at least once |
| Registry.TenantRegistry.Rebuild | internal/tenant/registry.go:41-121 | both tables hold, for each key, the last identity made under it |
| Registry.EntriesDistinct | internal/tenant/registry.go:57-101 | on a validated configuration no token's entry is overwritten |
| Registry.ResolvesExactly | internal/tenant/registry.go:123-129 | a token resolves to the identity of the enabled entry that holds it, and to nothing without one |
| Registry.ItemResolves | internal/tenant/registry.go:79-101 | an enabled token resolves to an identity with its fingerprint, name, limits and, where given, tenant and app |
| Registry.ValidResolves | internal/tenant/registry.go:57-76 | a valid token resolves to an identity named by its fingerprint, with the common rate and burst and no daily limit |
| Registry.EntriesAreSound | internal/tenant/registry.go:57-101 | on a validated configuration each token has one identity, and it carries the token's fingerprint |
| Registry.FoundIffLatest | internal/tenant/registry.go:62-76 | a lookup by fingerprint finds the latest entry made under it |
| Registry.AttributionRoundTrip | internal/tenant/registry.go:123-136 | the header of an entry's token resolves to that entry, and the cache's fingerprint of the header looks up the same entry iff the token holds no white space and no later entry shares its fingerprint |
| Registry.AllAttributedIff | internal/tenant/registry.go:123-136 | every caller is billed to themselves iff no token holds white space and no two entries share a fingerprint |
| Registry.BilledToAnother | internal/middleware/cache.go:200 | where the latest entry of a fingerprint has a token that reads like another's whole header, the other caller is billed to it |
| Registry.SchemeWordMisattributes | internal/tenant/registry.go:57-76 | an accepted configuration of a token and the same token behind the scheme word: the first authenticates as itself and is billed to the second |
| Registry.FingerprintsDistinctIff | internal/tenant/registry.go:62-76 | barring hash collisions, fingerprints are distinct iff the tokens differ once a scheme word is dropped |
| Registry.LookupIsFiled | internal/audit/aduitor.go:41 | an identity looked up by fingerprint carries that fingerprint |
| Registry.SchemeWordCollides | internal/tenant/registry.go:57-76 | an accepted configuration whose two tokens share a fingerprint |
| StreamUsage.ResponseRecorder.Write | internal/middleware/cache.go:46-53 | bytes are forwarded unchanged, and the usage kept is that of the chunks so far |
| StreamUsage.ResponseRecorder.ExtractUsageFromChunk | internal/middleware/cache.go:55-78 | the last positive usage among the chunk's data lines, or the one known before |
| StreamUsage.LinesAre | internal/middleware/cache.go:56 | the lines hold no newline and, joined by newlines, are the chunk |
| StreamUsage.EventIff | internal/middleware/cache.go:58-76 | a line reports usage iff it is `data: `, something other than `[DONE]`, and decodes to a positive total |
| StreamUsage.LastUsageIs | internal/middleware/cache.go:57-77 | what is known afterwards is the usage of the last line that reports any |
| StreamUsage.SilenceKeeps | internal/middleware/cache.go:57-77 | if no line reports, what was known before stays |
| StreamCuts.WholeIsLines | internal/middleware/cache.go:55-56 | the pieces that the chunks cut the lines into, joined line by line, are the lines of the whole stream |
| StreamCuts.KeptIsPieces | internal/middleware/cache.go:46-78 | where no chunk that reports lacks the marker, the usage kept is the last one the pieces report |
| StreamCuts.AudibleKeeps | internal/middleware/cache.go:46-52 | of a chunk without the marker only its line ends matter |
| StreamCuts.KeptIffHarmless | internal/middleware/cache.go:46-78 | for any chunks and any decoder, the usage kept is the last of the whole stream iff nothing harmful is lost of the last line to report anything, whole or in the pieces heard of it |
| StreamCuts.HeardKeptIffHarmless | internal/middleware/cache.go:46-78 | the same over all pieces, where no chunk that reports lacks the marker |
| StreamCuts.MarkerlessEventIsDropped | internal/middleware/cache.go:49-51 | an event that reports without the literal marker is dropped, uncut |
| StreamCuts.MarkerlessExample | internal/middleware/cache.go:49-51 | a decoder and an event it reports on without the marker |
| StreamCuts.ChunkingIsInvisible | internal/middleware/cache.go:46-78 | where no chunk that reports lacks the marker, a stream cut at line boundaries keeps its last usage |
| StreamCuts.MarkedStreamsSurvive | internal/middleware/cache.go:46-78 | the same for decoders that report only events spelling out the marker |
| StreamCuts.OneCutAgreesIff | internal/middleware/cache.go:46-78 | with neither chunk wrongly skipped, a cut whose halves report nothing loses nothing iff the line reports nothing, a later line reports, or the last usage before it is the same |
| StreamCuts.MidLineCutLosesUsage | internal/middleware/cache.go:46-78 | a lone event cut in two reports nothing although the whole event does |

## Left out

- HTTP servers and clients, headers other than those copied with a response, logging, metrics, `cmd/gateway`: input and output. Upstream attempts and executions are oracles.
- `redis_rate` and the Redis client: a reply or a failure chosen freely at each use; the health flag is not tied to it.
- The circuit breaker's own states belong to a library that is not part of this model; only the map of breakers is.
- A panic in a coalesced function, and the map entry it would leave.
- Floating-point rounding and overflow of machine integers; the truncation of rates to integers is kept.
- CIDR and address parsing, admin and metrics endpoints, trace headers, the Anthropic translation, URL joining, health probing.
- Uncached and streamed requests as seen by the run-level billing: `CacheBilling` covers the cached non-stream path.
- The audit record's provider, model, timestamps and ids, and the time a snapshot was last touched.
- The retry reasons and provider names given to metrics by the failover loop.
- Pairing of the quota gate with the cached path in one machine: `Quota` lets every admitted request push at most one record, as every path through the cache does.
- CoalescerObject.ResponseCoalescer.Publish: the response is a value, so sharing of memory between callers is not captured there; `Recorded` models the copies.
- Recorded.CopyHeaders: header values are sequences, so copying the inner slices is not distinguished from sharing them.
- Usage.UsageTable.RecordUsage: one map keyed by day and fingerprint stands for the nested maps; an empty map for a day is not distinguished from a missing one.
- Routing.MatchProviders: the library's stable sort is a specification function, proved ordered and stable; the library's own algorithm is not modelled.
- Config.ValidateProviders: the parsing of base URLs is an arbitrary predicate.
- Audit.ScheduleIndependent: the registry is fixed during a run; a rebuild between entries is not modelled.
- Registry.TenantRegistry.Rebuild: the sorted list of tokens kept for listing is not modelled.
