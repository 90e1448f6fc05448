# Verification model of the payment engine

A Dafny model of the settlement, counting, reference, charge and payout logic of the
payment engine, with proofs over every input, every trace and every interleaving.

| file | models |
|---|---|
| `Prelude.dfy` | shared vocabulary: options, results, gateways |
| `Money.dfy` | 64-bit amounts with a currency |
| `Reference.dfy` | the `optd-{product}-{gateway}-{ulid}` printer and parser |
| `Crockford.dfy` | the two Base32 encoders (section 6 of RFC 4648 with Crockford's alphabet) and ULID layouts |
| `Valkey.dfy` | integer keys with an expiry |
| `RateLimit.dfy` | the fixed-window limiter, in memory and in Valkey |
| `Health.dfy` | success rate, latency percentile and circuit breaker |
| `Lease.dfy` | the Valkey lock, and timed runs of competing holders |
| `Store.dfy` | the in-memory store shared by charges, webhooks and worker |
| `Protocol.dfy` | settlement as a step relation: read, verify and write apart |
| `Settlement.dfy` | the webhook service and the outbox worker as programs |
| `Accounting.dfy` | what sequences of whole calls add up to, and their embedding in the protocol |
| `Backlog.dfy` | drains that meet events they cannot finish: who is ever worked |
| `Router.dfy` | gateway ranking and fallback |
| `Breaker.dfy` | routing and health as one loop |
| `Charges.dfy` | charge initiation with its idempotency guard |
| `Engine.dfy` | everything that shares the store, interleaved call by call, with the charge calls open between lookup and store |
| `SqlCharges.dfy` | overlapping charge calls against the unique index of PostgreSQL |
| `Payouts.dfy` | reservations and batch creation |
| `Dispatch.dfy` | paying a batch out |

Classes carry the fields the original updates. Each of their methods is proved equal to a
specification function (`...Spec`, `...Step`) of the old state, and the theorems are about
those functions and their runs. Time is an integer number of nanoseconds (milliseconds in
the ULIDs) passed in as an argument; a gateway is any function from a reference to an
answer; identifiers and random bytes are arguments. A transaction and a guarded UPDATE are
one step each. A settlement status other than succeeded or failed counts as pending.

In `Protocol.dfy` a gateway may be unavailable or answer pending at any time, but its
terminal answer for a reference never changes, and new references and event ids are fresh
(`Engine.ChargesAreFresh` discharges this for charges with fresh ULIDs and UUIDs, whatever
runs in between, and `Engine.EngineRunsAreProtocolRuns` places the whole engine in the
protocol).

## Where the code differs from its comments

- `internal/gateway/reference.go:42` says 48 bits; the mask has 40. Time order is lost at
  every multiple of 2^40 ms (`Crockford.GoUlidSortsIff`), and the TypeScript client, which
  keeps 48, prints other identifiers after the first (`Crockford.ClientsAgreeIff`).
- "One collection entry per charge" does not hold. The worker collects an intent that a
  webhook settled once more (`Accounting.WorkerCollectsAgain`, exactly when:
  `Accounting.WorkDuplicatesIff`), and two webhooks may race
  (`Protocol.RacingWebhooksCollectTwice`). In every interleaving the entries are exactly the
  settling steps (`Protocol.CollectionsOfRun`), and a step adds a second entry exactly when
  the intent is already succeeded as it writes (`Protocol.SecondEntryIff`,
  `Protocol.CollectedOnceIff`). For one worker and whole calls the count is that of
  `Accounting.CollectionCountIsExact`.
- A success after the cooldown resets the run of failures, but a success while the circuit
  is open does not close it; only the 30 s do (`Health.SuccessLeavesCircuitOpen`,
  `Health.CircuitOpenIff`).
- The lock excludes as long as every holder is prompt, and no longer
  (`LeaseRuns.ExclusiveIffNobodyOverran`).
- The idempotency guard looks before it stores. Two overlapping charge calls with one key
  both charge (`Engine.OverlappingCallsChargeTwice`, exactly when: `Engine.SecondChargeIff`);
  calls that do not overlap never do (`Engine.OnlyOverlappingCallsChargeTwice`). On
  PostgreSQL the unique index refuses the second intent instead, and the charge the gateway
  has taken is left without one (`SqlCharges.LeftWithoutIntentIff`).
- A drain claims the 50 oldest pending events again and again, so 50 events that cannot be
  finished keep every newer one waiting for ever (`Backlog.WorkedIff`).
- A lost EXPIRE locks a client out for good (`RateLimit.KeyComesBackIff`), and a window
  with a fraction of a second makes the Valkey limiter more generous than the memory one
  (`RateLimit.InterchangeableIff`). The retry hint is rounded down
  (`RateLimit.RetryAfterSufficesIff`).
- `internal/payouts/service.go:188-191` says a dispatch settles or releases the
  reservations. It never settles one, and it releases by the id of the batch, which no
  reservation has (`Dispatch.ReservationsChangeIff`, `Dispatch.CreatedReservationsStayOpen`).
  Nor does a second dispatch of a batch know of the first (`Dispatch.BothRunsPay`, exactly
  when: `Dispatch.SecondDispatchPaysAgainIff`), contrary to
  `internal/payouts/service.go:107-109`.
- `internal/storage/postgres/store.go:343` announces a sort by creation time and then id;
  the id plays no part, so events of one instant come in any order
  (`Store.TiedEventsComeInAnyOrder`). Which claims are determined all the same is
  `Store.ClaimDeterminedIff`.
- The recipient fallback of the payout outbox key never applies
  (`Payouts.OutboxKeysCollideIff`).
- In the memory store a product with a colon can be answered with another pair's reference
  (`Charges.OverlappingPairsShareReference`, exactly when: `Charges.KeyCollisionIff`); such products are excluded where that matters.
- The TypeScript client's references do not parse on the server unless the product looks
  like `...-{gateway}` (`Reference.ClientReferenceParsesIff`).

## Model

| member | source | states |
|---|---|---|
| `Protocol.StepKeepsInv` | internal/worker/worker.go:99-177 | every step of every interleaving of webhooks, workers and charges (read, verify and write apart, any run abandonable, no lock assumed) keeps the global invariant, loses no intent or event, and changes nothing terminal |
| `Protocol.TerminalIsFinal` | internal/webhooks/webhooks.go:86-129 | between any two points of a run, intents and events stay and terminal statuses never change: an intent leaves pending at most once |
| `Protocol.OnlyTheTruth` | internal/worker/worker.go:145-175 | a terminal intent has the status its own gateway finally answers, whoever settled it |
| `Protocol.SucceededIffCollected` | internal/storage/postgres/store.go:385-416 | in every reachable state an intent is succeeded exactly when its reference has a collection entry |
| `Protocol.EventsAgreeWithIntents` | internal/storage/postgres/store.go:450-467 | every outbox event has its intent, on the same gateway, and a terminal event has the intent's status |
| `Protocol.MissingIntentUnreachable` | internal/worker/worker.go:119-125 | the branch that fails an event for want of an intent is never enabled |
| `Protocol.StepCollects` | internal/webhooks/webhooks.go:109-123 | each step that settles a reference as succeeded (webhook, worker, or a worker matching a terminal intent) adds one collection entry, every other step none |
| `Protocol.CollectionsOfRun` | internal/storage/postgres/store.go:385-416 | in every interleaving, with any number of webhooks and workers on stale readings, a reference has exactly one collection entry per settling step |
| `Protocol.SecondEntryIff` | internal/webhooks/webhooks.go:109-123 | a settling step leaves a second entry exactly when the intent is already succeeded just before it writes: the check neither writer makes |
| `Protocol.CollectedOnceIff` | internal/worker/worker.go:126-167 | at the end of a run a reference is collected at most once exactly when no step of the run settled it while it was succeeded |
| `Protocol.LedgerOfRun` | internal/storage/postgres/store.go:398-414 | in every interleaving a ledger is, entry by entry, what its settling steps book: a webhook the verified amount, a worker the verified amount, else that of the charge, else 18 cedis, at the verified time, and payouts as they are |
| `Protocol.StepBooks` | internal/worker/worker.go:126-167 | each step adds to a ledger exactly what it books |
| `Protocol.HookWrites` | internal/webhooks/webhooks.go:107-129 | a webhook's write, field by field: the answered status, and on success one collection of the verified amount, zero or not |
| `Protocol.RacingWebhooksCollectTwice` | internal/webhooks/webhooks.go:86-123 | what fails: two deliveries with different event ids, both past their read, collect one charge twice (the condition is SecondEntryIff) |
| `Protocol.WorkOutcomeKeeps` | internal/worker/worker.go:150-167 | the worker's write, made on an arbitrarily old reading, keeps the store sound |
| `Protocol.HookOutcomeKeeps` | internal/webhooks/webhooks.go:107-129 | so does the webhook's write on an arbitrarily old reading |
| `Settlement.WebhookService.Process` | internal/webhooks/webhooks.go:65-132 | the method computes the specified new store and answer on every branch, with the inbox row taken back on each failure |
| `Settlement.OutboxWorker.ProcessOne` | internal/worker/worker.go:99-177 | lock, settle and release: the specified new store, lock table and error |
| `Settlement.OutboxWorker.ProcessLocked` | internal/worker/worker.go:113-177 | the settlement inside the lock: missing, already terminal, unavailable and answered cases |
| `Settlement.OutboxWorker.DrainOutbox` | internal/worker/worker.go:78-97 | works through exactly the 50 oldest pending events in order and returns how many ended without an error |
| `Settlement.DeliveryEffect` | internal/webhooks/webhooks.go:74-131 | a delivery case by case: what is recorded, which status the charge takes and what is booked |
| `Settlement.WorkEffect` | internal/worker/worker.go:113-175 | working a stored event case by case: event and charge take the status learned, and a success books the verified amount or else that of the charge |
| `Settlement.WorkHappensIff` | internal/worker/worker.go:100-111 | without a connected locker an event is always worked, else when Valkey answers and no unexpired lock is on it; the lock is free afterwards |
| `Settlement.WorkFailsIff` | internal/worker/worker.go:99-164 | a call fails exactly on a broken lock command, or when the gateway confirms a charge whose event is gone |
| `Settlement.DrainCounts` | internal/worker/worker.go:88-96 | a drain counts every claimed event whose lock command did not break |
| `Accounting.FailuresLeaveNoTrace` | internal/webhooks/webhooks.go:74-106 | any number of deliveries that fail (unknown reference, no adapter, verify error) leave the store exactly as it was |
| `Accounting.RedeliveryIsIdempotent` | internal/webhooks/webhooks.go:74-131 | failures, one good delivery and any later ones end in the state of a single clean delivery, and every further one is a duplicate |
| `Accounting.CollectionCountIsExact` | internal/storage/postgres/store.go:385-416 | with one worker and webhooks between its calls, a reference has one collection entry per event marked succeeded plus one if a webhook settled it, the latter at most once |
| `Accounting.CollectedOnceIff` | internal/worker/worker.go:126-134 | a succeeded charge is collected exactly once unless both a webhook and the worker settled it |
| `Accounting.WorkDuplicatesIff` | internal/worker/worker.go:126-134 | working an event leaves two collection entries exactly when the intent was already succeeded before the call |
| `Accounting.WorkerCollectsAgain` | internal/worker/worker.go:126-134 | what fails: a charge, a webhook that settles it, and a worker on its event end with two collection entries |
| `Accounting.DrainProgress` | internal/worker/worker.go:78-97 | an unobstructed drain of n pending events leaves n - min(50, n) |
| `Accounting.BacklogEmptyIff` | internal/worker/worker.go:78-97 | after k unobstructed drains the backlog is empty exactly when k is at least n/50 rounded up |
| `Backlog.DrainEndsExactly` | internal/worker/worker.go:78-177 | a drain ends exactly the claimed events that have a free lock, an adapter and a terminal answer or intent, and moves none in time |
| `Backlog.DrainIsTurn` | internal/worker/worker.go:78-97 | every drain is a turn of the history below, the claimed events it does not end being the stuck ones |
| `Backlog.WorkedIff` | internal/storage/postgres/store.go:334-355 | starvation: over drains without end, with newer events arriving, an event is ever claimed exactly when fewer than 50 older events are stuck (no stuck one of its own instant) |
| `Backlog.ClaimedWithin` | internal/worker/worker.go:78-97 | it is then claimed within as many drains as there are events to end that are not newer |
| `Accounting.ProcessIsProtocolRun` | internal/webhooks/webhooks.go:65-132 | a whole Process call has the effect of a run of the concurrent protocol |
| `Accounting.WorkIsProtocolRun` | internal/worker/worker.go:113-177 | a whole processOne call on an event claimed any time before, stale or not, has the effect of a run of the concurrent protocol |
| `Accounting.ChargeIsProtocolRun` | internal/charges/service.go:128-152 | so has storing a charge with its event |
| `Accounting.SequentialRunsAreProtocolRuns` | internal/worker/worker.go:78-97 | every sequence of whole calls reaches a state the concurrent protocol reaches, so its theorems apply |
| `Store.MemoryStore.ClaimPending` | internal/storage/postgres/store.go:334-355 | returns the min(limit, n) oldest pending events, oldest first, none lost or repeated, whatever the map order |
| `Store.SortByCreatedAt` | internal/storage/postgres/store.go:343-350 | the in-place exchange sort orders by creation time, keeps exactly the same events, and leaves an array that is in order as it is |
| `Store.ClaimOfSorted` | internal/storage/postgres/store.go:350-354 | the prefix of a sorted listing is a correct claim: everything left out is at least as new as everything claimed |
| `Store.ClaimIffSortedCut` | internal/storage/postgres/store.go:334-355 | what may be claimed: exactly the cuts of the listings sorted by age, each of which the sort returns as the map yields it |
| `Store.ClaimDeterminedIff` | internal/storage/postgres/store.go:343-355 | the store determines the claim exactly when of any two equally old pending events at least `limit` others are strictly older |
| `Store.WholeBacklogDeterminedIff` | internal/storage/postgres/store.go:343-355 | when the limit covers the backlog, exactly when no two pending events are equally old |
| `Store.TiedEventsComeInAnyOrder` | internal/storage/postgres/store.go:343 | what fails: two events of one instant are claimed in either order, whatever their ids |
| `Store.MemoryStore.InsertWebhookInbox` | internal/storage/postgres/store.go:69-77 | adds the event id and says whether it was new |
| `Store.MemoryStore.DeleteWebhookInbox` | internal/storage/postgres/store.go:80-85 | removes the event id and nothing else |
| `Store.MemoryStore.FindIntent` | internal/storage/postgres/store.go:88-101 | the intent, or not found |
| `Store.MemoryStore.ApplyChargeOutcome` | internal/storage/postgres/store.go:104-115 | sets the status and appends the entries, or changes nothing for an unknown reference |
| `Store.MemoryStore.CreateIntent` | internal/storage/postgres/store.go:118-130 | a pending intent, and the key of its product if it has one |
| `Store.MemoryStore.FindByIdempotencyKey` | internal/storage/postgres/store.go:144-149 | the reference stored for product and key |
| `Store.MemoryStore.AppendEntry` | internal/storage/postgres/store.go:184-189 | appends to the entries of one reference |
| `Store.MemoryStore.GetIntent` | internal/storage/postgres/store.go:358-382 | the intent with an amount taken from its first ledger entry, or the default when there is none or it is zero |
| `Store.MemoryStore.CompleteSucceeded` | internal/storage/postgres/store.go:385-416 | event, intent and a never-zero collection entry, or not found without a change |
| `Store.MemoryStore.CompleteFailed` | internal/storage/postgres/store.go:419-431 | event and intent marked failed where they exist |
| `Store.MemoryStore.CountPending` | internal/storage/postgres/store.go:437-447 | the number of pending events |
| `Store.MemoryStore.InsertOutboxEvent` | internal/storage/postgres/store.go:450-467 | the pending event, with a made-up intent when its own is missing |
| `Store.CompletionBooks` | internal/storage/postgres/store.go:385-416 | completing an event changes its status and its charge's, appends one collection of the verified amount, else the charge's, else 18 cedis, and nothing else |
| `Store.FailureBooksNothing` | internal/storage/postgres/store.go:419-431 | failing changes the two statuses and no ledger |
| `Store.ViewIs` | internal/storage/postgres/store.go:358-382 | what a worker is shown of a charge, its amount being the first ledger entry's when that is not zero, else 18 cedis |
| `Store.StoredChargeIs` | internal/storage/postgres/store.go:118-130 | storing a charge, field by field: pending intent, key, pending event with the time it was queued, nothing else |
| `LeaseRuns.MutualExclusion` | internal/storage/valkey/locks.go:21-51 | if every holder leaves or crashes within its lease, no two workers are ever inside for one key, although release is unconditional |
| `LeaseRuns.CrashBlocksAtMostTtl` | internal/storage/valkey/locks.go:21-40 | a key nobody takes again is free one lease later |
| `LeaseRuns.OverrunAdmitsAnother` | internal/storage/valkey/locks.go:21-40 | the first worker to outstay its lease lets any other in beside it, on every run |
| `LeaseRuns.ExclusiveIffNobodyOverran` | internal/storage/valkey/locks.go:21-51 | a run prompt so far stays exclusive under every further entry exactly when nobody inside has outstayed its lease |
| `LeaseRuns.OverrunBreaksExclusion` | internal/storage/valkey/locks.go:43-51 | what fails after one overrun: release by the late worker leads to two workers inside that are both within their leases |
| `LeaseRuns.StepKeepsInv` | internal/storage/valkey/locks.go:21-51 | every step of prompt workers keeps the exclusion invariant |
| `Lease.Locker.TryAcquire` | internal/storage/valkey/locks.go:21-40 | takes the key exactly when it is absent or has expired; always succeeds without a client; errors change nothing |
| `Lease.Locker.Release` | internal/storage/valkey/locks.go:43-51 | deletes the key whoever holds it |
| `RateLimit.RateLimiter.constructor` | internal/api/ratelimit.go:40-52 | a limit that is not positive switches the limiter off |
| `RateLimit.RateLimiter.Allow` | internal/api/ratelimit.go:55-75 | Valkey decides when it answers, memory otherwise; the other counter is untouched; a disabled limiter admits all |
| `RateLimit.RateLimiter.AllowMemory` | internal/api/ratelimit.go:103-124 | the new buckets and the decision, retry seconds included |
| `RateLimit.RateLimiter.AllowValkey` | internal/api/ratelimit.go:77-101 | the new remote counter and the decision, with EXPIRE and TTL replies that may fail |
| `RateLimit.ValkeyDecision` | internal/api/ratelimit.go:88-99 | Valkey admits by the count alone, whatever TTL replies; a denied client is told that reply when it is at least 1, 1 when it is 0, else the whole seconds of the window, and never 0 |
| `RateLimit.MemoryDecision` | internal/api/ratelimit.go:103-124 | in memory a denied client is told the whole seconds left of its window, and never 0 |
| `RateLimit.BucketCounts` | internal/api/ratelimit.go:103-124 | a bucket always counts the requests of its key since the request that opened the window, at whose time it starts |
| `RateLimit.AdmittedIffEarlyInWindow` | internal/api/ratelimit.go:103-124 | a request is admitted exactly when it is among the first `limit` of its window |
| `RateLimit.WindowAdmitsExactly` | internal/api/ratelimit.go:103-124 | every window of every trace admits exactly min(limit, requests) |
| `RateLimit.IntervalBound` | internal/api/ratelimit.go:103-124 | on every nondecreasing trace, what an interval one window long has admitted, case by case on where the current window began |
| `RateLimit.NoBurstBeyondTwice` | internal/api/ratelimit.go:103-124 | at most 2*limit - 1 requests of a key in any half-open interval one window long |
| `RateLimit.BoundIsReached` | internal/api/ratelimit.go:103-124 | that bound is reached for every limit and every window of at least two ticks |
| `RateLimit.OtherKeysDoNotMatter` | internal/api/ratelimit.go:103-124 | a key's bucket is what it would be if only that key had made requests |
| `RateLimit.InterchangeableIff` | internal/api/ratelimit.go:77-124 | memory and Valkey decide alike on every trace exactly when the window is a whole number of seconds or not positive, whatever TTL replies |
| `RateLimit.KeyComesBackIff` | internal/api/ratelimit.go:77-101 | once the window is over a request is admitted exactly when the EXPIRE that opened it took effect or the requests ever made still fit the limit, whatever TTL replies |
| `RateLimit.LostExpireLocksOut` | internal/api/ratelimit.go:77-101 | what fails: if a window's only EXPIRE is lost, the counter never expires, however late the requests come |
| `RateLimit.SubSecondWindowAdmitsAll` | internal/api/ratelimit.go:84-90 | in a window shorter than a second EXPIRE deletes the key, and every request is admitted |
| `RateLimit.RetryAfterSufficesIff` | internal/api/ratelimit.go:114-124 | waiting the advertised seconds suffices exactly when at most one second or a whole number of seconds was left; one more always does |
| `Health.HealthStore.RecordResult` | internal/storage/valkey/gateway_health.go:112-140 | the counters, expiries and circuit key after a result |
| `Health.HealthStore.IsCircuitOpen` | internal/storage/valkey/gateway_health.go:98-108 | whether the circuit key is live |
| `Health.HealthStore.SuccessRate` | internal/storage/valkey/gateway_health.go:71-95 | the success counter over the attempt counter, 1 without attempts |
| `Health.HealthStore.RecordLatency` | internal/storage/valkey/gateway_health.go:146-171 | the clamped sample joins the others, which stay sorted |
| `Health.HealthStore.P95Latency` | internal/storage/valkey/gateway_health.go:176-231 | 0 without fresh samples, else their 95th percentile by nearest rank; stale samples are dropped from the store |
| `Health.HealthStore.MaybeOpenCircuit` | internal/storage/valkey/gateway_health.go:235-252 | opens for 30 s at five failures or more, else changes nothing |
| `Health.FailureCounter` | internal/storage/valkey/gateway_health.go:112-135 | after every history the failure counter is the length of the run of failures it ends in |
| `Health.CircuitOpenIff` | internal/storage/valkey/gateway_health.go:98-140 | the circuit is open exactly while some failure that was at least the fifth of its run is less than 30 s old |
| `Health.SuccessLeavesCircuitOpen` | internal/storage/valkey/gateway_health.go:112-140 | what fails: a success does not close an open circuit, which stays open as long as before it |
| `Health.HalfOpenProbe` | internal/storage/valkey/gateway_health.go:235-252 | after the cooldown one failure opens the circuit again; one success keeps it closed through the next four failures |
| `Health.FewerSuccesses` | internal/storage/valkey/gateway_health.go:112-135 | the success counter never runs ahead of the attempt counter although both expire on their own |
| `Health.RateOfHistory` | internal/storage/valkey/gateway_health.go:71-95 | the reported rate is recent successes over recent attempts of the history, and lies in [0, 1] |
| `Health.NearestRank` | internal/storage/valkey/gateway_health.go:216-230 | the index chosen is the 95th percentile: at least 95% of the samples are at or below it and no smaller sample has that |
| `Health.FreshKeeps` | internal/storage/valkey/gateway_health.go:192-212 | pruning keeps every sample of the last ten minutes as often as it is there, and no older one |
| `Health.FreshSamplesOfHistory` | internal/storage/valkey/gateway_health.go:146-231 | whatever was asked in between and whenever the key expired, the percentile is of every sample of less than ten minutes ago, as often as it was recorded, and of none from before |
| `Health.Clamp` | internal/storage/valkey/gateway_health.go:150-156 | a score is its milliseconds, kept between zero and a minute |
| `Crockford.EncodeCrockford` | internal/gateway/reference.go:52-71 | the loop with the overflowing 16-bit accumulator prints exactly the big-endian five-bit groups of the 16 bytes, zero-padded on the right |
| `Crockford.EncodeCrockfordTs` | clients/ts/orctapay/src/reference.ts:30-47 | the loop with signed 32-bit operators prints the same |
| `Crockford.SymbolsValue` | internal/gateway/reference.go:52-71 | read in base 32 the groups are four times the bytes read in base 256: nothing is lost |
| `Crockford.EncodePreservesOrder` | internal/gateway/reference.go:50-71 | the encoding is injective and sorts exactly as the bytes do |
| `Crockford.NewULID` | internal/gateway/reference.go:39-48 | the layout: 40 bits of the clock in the first 48, then the entropy |
| `Crockford.NewULIDTs` | clients/ts/orctapay/src/reference.ts:4-28 | the client's layout: the full 48 bits |
| `Crockford.GoUlidSortsIff` | internal/gateway/reference.go:39-48 | identifiers sort by time whatever their entropy exactly when the 40-bit clocks are in order |
| `Crockford.GoUlidSortsWithinPeriod` | internal/gateway/reference.go:39-48 | inside one period of 2^40 ms a later identifier is the greater one |
| `Crockford.GoUlidWrapsAtBoundary` | internal/gateway/reference.go:42 | what fails: one millisecond across the boundary the order is reversed |
| `Crockford.ClientsAgreeIff` | clients/ts/orctapay/src/reference.ts:17-27 | both clients print the same identifier exactly when the 48-bit clock fits in 40 bits |
| `Reference.ParseOfBuilt` | internal/gateway/reference.go:15-36 | a non-empty product, dashes and all, a known gateway and a dash-free ULID survive printing and parsing |
| `Reference.BuildOfParsed` | internal/gateway/reference.go:15-36 | any string that parses is rebuilt character for character |
| `Reference.RoundTripIff` | internal/gateway/reference.go:15-36 | the triple survives exactly when it is legal |
| `Reference.BuildInjective` | internal/gateway/reference.go:15-17 | two legal triples never print alike |
| `Reference.ClientReferenceParsesIff` | clients/ts/orctapay/src/reference.ts:56-59 | the server parses a client-made reference exactly when the product ends in -{gateway} |
| `Router.ChargerRouter.constructor` | internal/gateway/router.go:33-39 | the primary gateway leads and the adapters are those given |
| `Router.ChargerRouter.Route` | internal/gateway/router.go:42-64 | the two loops compute the specified ranking |
| `Router.ChargerRouter.InitiateWithFallback` | internal/gateway/router.go:70-109 | calls, recorded results and answer are those of the specified walk along the route |
| `Router.ChargerRouter.Adapter` | internal/gateway/router.go:112-115 | whether the gateway has an adapter |
| `Router.RouteProperties` | internal/gateway/router.go:42-64 | a route is never empty, never repeats, holds the gateways whose circuit is closed, or all when none is, and the primary leads when in it |
| `Router.FirstAcceptorWins` | internal/gateway/router.go:80-108 | a charge succeeds exactly when some gateway on the route accepts it, and goes to the first that does |
| `Router.OnlyTheLastCallIsAccepted` | internal/gateway/router.go:80-108 | every call carries its own gateway's reference and only the last can have been accepted |
| `Router.NobodyIsSkipped` | internal/gateway/router.go:80-108 | every gateway on the route that has an adapter is asked, up to the first that accepts, and no other |
| `Router.AskedInRouteOrder` | internal/gateway/router.go:80-108 | and in the order of the route |
| `Router.RecordedIsWhatHappened` | internal/gateway/router.go:91-103 | the health store is told of every acceptance and rejection, and of no missing configuration |
| `Router.FailedWalk` | internal/gateway/router.go:99-108 | a walk that nobody accepts fails for the reason of the last gateway asked |
| `Router.RouteIsRanked` | internal/gateway/router.go:42-64 | the primary is tried first, the others in the order hubtel, paystack, moolre |
| `Breaker.LeftOutIff` | internal/gateway/router.go:42-133 | routing and health as one loop: over any calls one after the other, a gateway is left out of the route exactly while a fifth consecutive recorded failure of its own is less than 30 s old and some other gateway has none |
| `Breaker.FailingGatewayRests` | internal/gateway/router.go:42-133 | while there is always another to turn to, the next result after a fifth or later failure in a row comes at least 30 s later |
| `Breaker.AddedOnce` | internal/gateway/router.go:80-108 | one call records at most one result of a gateway, and none of a gateway that is not on its route |
| `Breaker.RecordsFollowHistories` | internal/storage/valkey/gateway_health.go:112-140 | the health store keeps each gateway's record as its own history makes it, whatever others do |
| `Charges.ChargeService.Initiate` | internal/charges/service.go:93-154 | store, answer and gateway calls are those of the specification on every branch |
| `Charges.ChargeService.Status` | internal/charges/service.go:157-178 | asks the gateway the reference names, or nobody |
| `Charges.StoredReference` | internal/charges/service.go:128-152 | a call stores one charge under its gateway's reference, or leaves the store alone |
| `Charges.StoredReferenceIsTheSentOne` | internal/charges/service.go:111-166 | even if health changes between the two rankings, the stored reference is the one the only accepting gateway was sent, and Status routes back to it |
| `Charges.AnswerOfCall` | internal/charges/service.go:122-152 | which answer a call gets from the gateways' replies: Started when one on the second route accepts, else Parked when the last one asked is not configured, else failed, naming the last one asked or nobody |
| `Charges.GuardDecides` | internal/charges/service.go:93-110 | what is refused and what is answered from the key before any gateway is asked |
| `Charges.StatusAsksIff` | internal/charges/service.go:157-178 | Status asks a gateway exactly when it has an adapter and the reference is a printed one that names it |
| `Charges.KeyCollisionIff` | internal/storage/postgres/store.go:124-149 | two pairs share their stored key exactly when they are equal or one product reaches past its colon |
| `Charges.OverlappingPairsShareReference` | internal/charges/service.go:104-110 | what fails: such a call is answered with the other pair's reference, sends nothing and stores nothing |
| `Engine.ActKeepsInv` | internal/charges/service.go:93-154 | every act of the engine (lookups and ends of overlapping charges, webhooks, workers on claims of any age, payouts) keeps its invariant |
| `Engine.ChargesAreFresh` | internal/charges/service.go:111-152 | with all of these in between, a charge always lands on a reference and an event id new to the store |
| `Engine.InitiateIsLookAndFinish` | internal/charges/service.go:93-154 | a call of Initiate that nothing disturbs is its lookup followed by its end |
| `Engine.SecondChargeIff` | internal/charges/service.go:104-144 | when the guard fails: the charge a call stores is a second one under its key exactly when another call has stored one since it looked |
| `Engine.OverlappingCallsChargeTwice` | internal/charges/service.go:104-144 | what fails: any two calls for one pair that both look before either ends, and that a gateway takes, leave two charges under one key with two references |
| `Engine.RaceExists` | internal/charges/service.go:104-144 | with every router whose primary has an adapter there are two such calls |
| `Engine.OnlyOverlappingCallsChargeTwice` | internal/charges/service.go:104-144 | of two charges under one key the later call looked before the earlier was stored: calls that do not overlap never charge a pair twice |
| `Engine.ReferenceStaysIff` | internal/storage/postgres/store.go:118-149 | a key keeps its reference for ever exactly when no call under way is about to store a charge under it |
| `Engine.RepeatedKeyReusesReference` | internal/charges/service.go:104-110 | once stored and with no such call under way, a product and key are answered with their reference for ever, without a gateway call or a change, whatever else happens |
| `Engine.DistinctPairsDistinctReferences` | internal/storage/postgres/store.go:118-149 | different pairs never share a reference while products carry no colon |
| `Engine.EngineRunsAreProtocolRuns` | internal/worker/worker.go:78-177 | the whole engine, with overlapping charges and any number of workers, reaches only states the concurrent protocol reaches |
| `Engine.EngineSettlesSoundly` | internal/webhooks/webhooks.go:65-132 | so in it succeeded is collected, terminal intents have their gateway's answer, and events agree with intents |
| `SqlCharges.PostgresStore.CreateIntent` | internal/storage/postgres/pg_store.go:132-148 | stores the row unless a CHECK, the primary key or the unique index on product and key refuses it |
| `SqlCharges.PostgresStore.FindByIdempotencyKey` | internal/storage/postgres/pg_store.go:170-182 | the reference of the row with the product and key, if any |
| `SqlCharges.LeftWithoutIntentIff` | internal/charges/service.go:139-141 | on PostgreSQL a charge that the gateways have taken is left without an intent exactly when it is not in cedis or another call for its pair has stored since it looked |
| `SqlCharges.OverlappingCallLosesIntent` | internal/charges/service.go:139-141 | what fails: of two overlapping calls that a gateway takes, the one to end last leaves a charge without an intent |
| `SqlCharges.OneIntentPerPair` | internal/storage/postgres/pg_store.go:129-148 | no two intents share a product and key, in any run |
| `SqlCharges.RowsStay` | internal/storage/postgres/pg_store.go:129-148 | an intent keeps its row whatever happens after, so a pair keeps its reference without a proviso |
| `Reservations.Table.GuardedUpdate` | internal/storage/postgres/payout_reservations.sql.go:191-218 | moves the open rows with the id and reports whether there was one |
| `Reservations.Table.RowsChecked` | internal/storage/postgres/pg_store.go:341-353 | success when a row moved or exists, else not found |
| `Reservations.Table.SettleReservation` | internal/storage/postgres/pg_store.go:319-328 | settles an open reservation; success exactly when the reservation exists |
| `Reservations.Table.ReleaseReservation` | internal/storage/postgres/pg_store.go:331-337 | the same for releasing |
| `Reservations.FirstTransitionWins` | internal/storage/postgres/payout_reservations.sql.go:191-218 | under any sequence of transitions a reservation leaves open at most once, for the first transition on its id |
| `Reservations.ReservedMoneyIsConserved` | internal/storage/postgres/payout_reservations.sql.go:191-218 | open, settled and released money keep their sum, and neither settled nor released money shrinks |
| `Payouts.BatchStore.CreateBatchWithReservations` | internal/storage/postgres/pg_store.go:186-222 | all rows or none: the checks on amounts and the unique index roll everything back |
| `Payouts.BatchCreator.Create` | internal/payouts/service.go:110-181 | the batch, its rows and the error of every branch |
| `Payouts.CreatedBatchIsRequested` | internal/payouts/service.go:132-163 | a created batch has the request's entries one by one, recipient, amount and vendor as requested, under their own references or ones that parse as (product, moolre, ULID), and its amounts as open reservations |
| `Payouts.CreationError` | internal/payouts/service.go:114-165 | which error a creation ends in, in the order of the checks |
| `Payouts.FirstFaultDecides` | internal/payouts/service.go:117-127 | the first entry that cannot be added decides between an invalid amount and mixed currencies |
| `Payouts.StoredIff` | internal/storage/postgres/pg_store.go:186-222 | a batch is stored exactly when its total and amounts are positive and neither its id nor its key is taken |
| `Payouts.BatchCreator.TotalOf` | internal/payouts/service.go:117-127 | the checked sum of the entries or the first error |
| `Payouts.BatchCreator.WithReferences` | internal/payouts/service.go:143-163 | every entry keeps its reference or gets a generated one |
| `Payouts.TotalExistsIff` | internal/payouts/service.go:117-127 | a total exists exactly when all amounts are positive and at most one currency is named; it is the sum, truncated to 64 bits, in that currency |
| `Payouts.TotalIsSumIff` | internal/payouts/service.go:117-127 | it is the true sum exactly when that fits in 64 bits |
| `Payouts.OrderDoesNotMatter` | internal/payouts/service.go:117-127 | any order of the entries gives the same acceptance and total |
| `Payouts.TotalIsReserved` | internal/storage/postgres/pg_store.go:186-222 | the total of a new batch is what its reservations hold |
| `Payouts.CreationFailsIff` | internal/payouts/service.go:114-165 | while the sum fits in 64 bits, exactly when creation is refused |
| `Payouts.OutboxKeysCollideIff` | internal/payouts/service.go:169-175 | entries share an outbox key exactly when they share a vendor: the recipient fallback never applies |
| `Money.Add` | internal/money/money.go:45-51 | the sum exists unless two different currencies are named; it is exact when it fits in 64 bits and congruent modulo 2^64 always |
| `Money.AddIsPartialCommutativeMonoid` | internal/money/money.go:45-51 | zero is neutral, order and grouping matter neither to the sum nor to its existence |
| `Dispatch.PayoutService.Dispatch` | internal/payouts/service.go:192-248 | calls, ledger, locks and reservations after the whole loop are those of the specification |
| `Dispatch.PayoutService.DispatchEntry` | internal/payouts/service.go:196-246 | one turn of the loop: lock, pay along the route, book or release |
| `Dispatch.PayoutService.PayEntry` | internal/payouts/service.go:204-241 | the inner loop over the route |
| `Dispatch.FirstWillingGatewayDecides` | internal/payouts/service.go:205-241 | the first gateway that does not refuse decides: paid through it, or by nobody |
| `Dispatch.NobodyWilling` | internal/payouts/service.go:205-246 | when everyone refuses, the entry fails if anyone was asked and is skipped otherwise |
| `Dispatch.EachEntryIsPaidAtMostOnce` | internal/payouts/service.go:196-247 | in one run an entry has at most one accepted payout, its last call, and all its calls carry its own recipient, reference and amount |
| `Dispatch.LedgerRecordsWhatWasPaid` | internal/payouts/service.go:215-230 | with a ledger, each reference gains exactly the entries of its accepted payouts, in order, and nothing else is written |
| `Dispatch.DispatchedIff` | internal/payouts/service.go:197-203 | an entry gets past the lock exactly when Valkey answers, the reference was not locked from before, and no earlier entry with it was dispatched within the last lease |
| `Dispatch.EachReferenceIsTriedOnce` | internal/payouts/service.go:197-203 | with leases that outlive the run, entries sharing a reference get one attempt and at most one accepted payout |
| `Dispatch.LocksAfterwards` | internal/payouts/service.go:202 | after the run exactly the locks of the dispatched entries are gone |
| `Dispatch.PaidIff` | internal/payouts/service.go:196-241 | an entry is paid exactly when it gets past the lock and its route ends with a gateway that pays |
| `Dispatch.PaysOutIff` | internal/payouts/service.go:204-241 | a route ends with a gateway that pays exactly when the first on it that has an adapter and does not refuse pays |
| `Dispatch.WithoutLockerPaidIff` | internal/payouts/service.go:198-241 | without a connected locker an entry is tried if its route has an adapter, and paid exactly when the first on it that does not refuse pays |
| `Dispatch.WithLockerPaidIff` | internal/payouts/service.go:198-241 | with one, exactly when in addition Valkey answers, the reference is not locked from before, and none before it has used its reference within the last lease |
| `Dispatch.TakenIsTried` | internal/payouts/service.go:204-211 | an entry that gets past the lock has at least one call if its route has an adapter |
| `Dispatch.SecondDispatchTriesAgainIff` | internal/payouts/service.go:192-203 | exactly when the next run of a batch gets an entry past the lock again |
| `Dispatch.SecondDispatchPaysAgainIff` | internal/payouts/service.go:192-241 | what fails: an entry paid by one run is paid again by the next exactly when Valkey answers, a gateway pays, and its reference was not just used |
| `Dispatch.BothRunsPay` | internal/payouts/service.go:192-241 | what fails: two undisturbed runs of one batch both pay its first entry |
| `Dispatch.ReservationsChangeIff` | internal/payouts/service.go:242-245 | a dispatch changes a reservation exactly when an entry fails and an open reservation carries the id of the batch |
| `Dispatch.CreatedReservationsStayOpen` | internal/payouts/service.go:242-245 | whatever is dispatched and however it ends, the reservations a batch was created with stay open |

## Left out

- HTTP adapters, signatures and webhook payload parsing: an adapter is an arbitrary answer, a delivery is its event id and reference.
- The SQL statements and the driver: a transaction is one atomic step, a guarded UPDATE a conditional change of rows; errors of the database itself are not modelled, and reservation ids are taken as given by the caller.
- Reads of the store fail only when the row is absent; the worker treats every other read error as an absent intent.
- Ledger entry ids, booking and settlement times, the value time of payouts, and the amount columns of intents: the in-memory store keeps none of the latter.
- The transactional versions of ApplyChargeOutcome and CompleteSucceeded/CompleteFailed: their effect is taken to be that of the in-memory ones. `Engine` is about the in-memory store throughout; what PostgreSQL's unique index on product and key changes about charges is `SqlCharges`, which leaves settlement out.
- Engine.ReferenceStaysIff: of the memory store, whose keys are concatenations that a later store overwrites; on PostgreSQL it holds without a proviso (`SqlCharges.RowsStay`, `SqlCharges.OneIntentPerPair`).
- Backlog.WorkedIff: an event stuck for a while only, and a stuck event of the very instant of the one that waits; then the order of the map decides.
- Floating point: the success rate is a real number, the percentile index is computed in integers, Duration.Seconds is a truncated division.
- The health store without a client, where recording does nothing, every rate is 1 and every circuit closed.
- A Valkey command that takes effect but reports an error, and partial failures inside RecordResult, which is taken as one instant; the timing of evictions other than by expiry.
- MarkPendingRetry and the backoff, which change no state the model has, and the Initiate fallback of the worker, whose guard is constantly false.
- Reconcile appears only as a step that changes nothing, since it only counts and reads.
- UpdateStatus, FindByRef, StampSettlement, CreateReservation and the list queries: easy members that no theorem here needs.
- The payout outbox rows: only the key they get is modelled; nothing reads them back.
- Routing results, latencies and metrics recorded during a payout dispatch: they do not influence it.
- Other processes acting between two entries of one dispatch: `LeaseRuns` covers competing holders of a lock, `Dispatch` one run at a time.
- The apps service and key rotation, configuration, logging, tracing, metrics, HTTP routing, middleware and dashboard.
- RateLimit.InterchangeableIff: compares the limiters with every EXPIRE successful; failing ones are the subject of KeyComesBackIff.
- Engine.ActKeepsInv: an intent and its outbox event are stored in one act; `Protocol` has them as separate steps, with a crash in between.
