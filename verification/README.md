# BRIEFR: a verified model of its outbound queue, limiters, counters, confidence and exports

BRIEFR collects vulnerability and threat feeds and rates and exports what it finds. This project models
the logic of its backend that is not plumbing, and proves what that logic is for.

* **Outbound requests.** Every call to a provider waits in a queue for its pacing key
  (`ApiQueue*.dfy`). Each pass of the wait loop, each pause, cancellation and release is one atomic step,
  as there is no await inside the locked block. A run is any sequence of such steps of any callers with a
  clock that does not go back. `ApiQueueTable.dfy` has the same steps as methods of a class that update
  the dictionaries in place, each proved to take exactly the step of the model. `SourcePacing.dfy` and
  `LlmRateBound.dfy` add the configured intervals, `PublishedLimits.dfy` the limits that they keep,
  `PremiumPacing.dfy` what the premium tier does to them, `Durations.dfy` the parser of the pauses that
  providers ask for, `CircuitBreaker.dfy` and `ResilientClient.dfy` the breaker and the two retry loops
  around a slot, and `SlotOutcomes.dfy` how these loops end. `ApiQueueRequests.dfy` is about the request table.
  `CallPacing.dfy` is about the HTTP calls of slots, and `ClientsInQueue.dfy` puts any number of clients
  into the queue.
* **Inbound limits.** A token bucket per client key. `TokenHistory.dfy` says what one key's calls get as a
  function of their times; `TokenBucket.dfy` is the pruned in-memory limiter and `RateLimitStore.dfy` the
  one over a shared table, and both are proved to answer by that function.
* **Usage counters.** `UsageTracking.dfy` is the buffered, two-lock flush protocol as a state machine over
  every interleaving, `UsageTracker.dfy` the same transitions as methods.
* **Correlation confidence.** `Freshness.dfy` and `Confidence.dfy`: the rules, the numeric score, and how
  the two combine. The logarithm and the power of one half are any functions with their laws.
* **Blocklist.** `Classification.dfy`, `Blocklist.dfy` (the payload as a function of the rows),
  `BlocklistBuilder.dfy` (the dictionaries and loops that compute it), `BlocklistSoundness.dfy`,
  `BlocklistOtx.dfy`, `BlocklistConservation.dfy`, `BlocklistOrder.dfy`, `BlocklistRecord.dfy`,
  `BlocklistExport.dfy` and `BlocklistExamples.dfy`.
* **Morning brief.** `EpssMovers.dfy`, `ActionQueue.dfy`, `BriefScores.dfy` and `BriefBuilder.dfy`, in which
  brief items are objects, so that sharing between the sections and the queue is visible.
* `Options.dfy`, `Ordering.dfy` and `Ranking.dfy` are what the others share: stable sorting, first-seen
  order, and what a permutation changes.

Times are in seconds (in days for the age of an observation), as reals. The clock, environment variables,
responses, rows and the helpers that are not part of the model are parameters.

## Where the code differs from what it or its documentation says

Each of these follows the code. The members named say exactly when it happens, and show an input at
which it does.

* `backend/correlation/confidence.py:47-51` says that a hub cannot be rescued back up. A hub of 4 to 10
  CVEs can (`HubRescuedIff`, `HubRescued`); one of more than 10 cannot (`HubCeiling`).
* `backend/correlation/confidence.py:53-55` says that the reason why a level is not higher is that of the
  last factor. It is so only for noise, and when the numeric level lowered the rules
  (`LastFactorExplainsIff`, `HubReasonIsNotLast`). A reason may also be given although the level is high
  (`HighStillExplainedIff`, `HighExplainedByNoise`); as GreyNoise verdicts are stored for addresses only
  (`backend/enrichment/ioc.py:280-328`), and addresses are never high, that takes a direct call.
* The premium tier halves the interval of an LLM provider too. In runs of the queue it keeps the request
  limit, and the token limit, only if the other limit or the floor already asked for twice the interval
  (`PremiumKeepsLimitsIff`); with Gemini's defaults it hands out 26 slots within a minute that grants 15
  requests (`PremiumExceedsGemini`).
* `backend/source_rate_limits.py:3-5` promises a minimum spacing between requests. Slots keep it; HTTP
  calls keep it only without retries, which wait for a backoff of their own (`CallsSpacedIff`,
  `EarlyRetry`). What a window can hold all the same is `WindowCallBound`.
* A release by id keeps the books only for an id that was handed out for that key
  (`ReleaseKeepsBooksIff`); the clients of `resilient_client.py` release no other (`ClientsKeepTheBooks`).
* `backend/resilient_client.py:304-305` says that a rate limit never drops a request that waits. It does
  when the tries are used up on an exhausted 403 quota whose header is not spelt `0`: the retry loop reads
  a number, the loop around it compares a text (`DroppedIff`, `WaitingGoesOnIff`, `WaitingRequestDropped`).
* Bare seconds from 10^9 on are taken for a point in time (`DelaySecondsIff`).
* `backend/blocklist/build.py:170-171` calls the evidence order total, and the payload independent of the
  order of rows. Rows of one query may tie, and the rows of the infrastructure query, which has no order
  (`backend/db/blocklist.py:61-65`), may name one host in two ways: the payload is independent of the order
  exactly when neither happens to a candidate (`OrderInvisibleIff`, `PulseRowsTie`, `InfraOrderShows`). The
  two evidence queries do order their rows, so for them it takes a physical order they do not return today.
* The export goes by the last infrastructure row of a host, the corroboration lookup by any of them
  (`ExclusionsAgreeIff`, `OverruledExclusion`).
* `backend/blocklist/classify.py:48-50` says that a disabled row classifies as unknown. It keeps its class,
  and excludes nothing (`UnknownIff`, `DisabledKeepsClass`).
* In mode `all` the text export prints the domain of a record that is only eligible as a URL
  (`DomainListIsClean`, `ExcludedHostListed`); the one route to it refuses that mode (`TxtRouteRefusesAll`).
  The URL list counts records that it does not print (`HeaderCountIff`, `BlankUrlCounted`).
* Reasons lose their duplicates only when a CVE is mentioned at least twice (`EntryMergesMentions`,
  `RepeatedReasonKept`); the sections of the brief make no item with a repeated reason.

## Model

| member | source | states |
|---|---|---|
| `ApiQueueTable.Table.EnterQueue` | backend/api_queue.py:263-278 | a new request is registered and counted; nothing else changes |
| `ApiQueueTable.Table.PollOnce` | backend/api_queue.py:280-318 | one pass of the wait loop takes the model's step: blocked by concurrency, by pacing or a pause, or granted with the exit code run |
| `ApiQueueTable.Table.LeaveQueue` | backend/api_queue.py:315-318 | a cancelled waiter leaves the counter and the table |
| `ApiQueueTable.Table.ReleaseApiSlot` | backend/api_queue.py:321-338 | a release takes the model's step, with or without an id |
| `ApiQueueTable.Table.ReleaseById` | backend/api_queue.py:327-333 | the id leaves table and stack and the counter falls, or nothing changes |
| `ApiQueueTable.Table.ReleaseMostRecent` | backend/api_queue.py:335-338 | the top of the stack is released; the counter falls even when the stack is empty |
| `ApiQueueTable.Table.ScheduleSourcePause` | backend/api_queue.py:139-154 | a positive pause, clamped to an hour, only ever extends the pause |
| `ApiQueueTable.Table.SyncRequestWaitStates` | backend/api_queue.py:157-171 | the loop rewrites exactly the waiting requests of the key |
| `ApiQueueAccounting.StepKeepsAccounts` | backend/api_queue.py:278-338 | every step keeps the books of every key and the concurrency limit |
| `ApiQueueAccounting.OtherKeysKept` | backend/api_queue.py:278-338 | a step touches nothing of another key, not even a release without an id |
| `ApiQueueAccounting.QueueAccounting` | backend/api_queue.py:278-338 | in every run: active = stack length = active requests, at most the limit; queued = waiting requests; no id twice on a stack |
| `ApiQueueAccounting.ReleaseKeepsBooksIff` | backend/api_queue.py:327-333 | a release by id keeps the books if and only if the id is unknown or active for that key |
| `ApiQueueAccounting.SecondReleaseIsNoOp` | backend/api_queue.py:327-333 | releasing an id again changes nothing, at once or after any run |
| `ApiQueueAccounting.GrantThenRelease` | backend/api_queue.py:304-338 | a release undoes its grant, by id or as the most recent one, and keeps the start time |
| `ApiQueueAccounting.ReleaseWithoutId` | backend/api_queue.py:335-338 | a release without an id takes the top of the stack, if there is one, and counts down to no less than zero in any case |
| `ApiQueueAccounting.PauseReachesWaiters` | backend/api_queue.py:139-171 | a pause tells its reason to exactly the waiting requests of its key: rate limited while it lasts or for one of five reasons, otherwise waiting, or queued without a reason |
| `ApiQueueRequests.RequestRecord` | backend/api_queue.py:263-313 | as long as a request is in the table it shows the key and time of its entry, and it is active, with the time of its grant, if and only if it has been handed a slot |
| `ApiQueueRequests.StepKeepsRequest` | backend/api_queue.py:263-318 | no step brings a request back, changes its key or queue time, or changes its start time except by handing it a slot |
| `ApiQueueRequests.GrantClearsReason` | backend/api_queue.py:304-313 | a grant clears the reason, so whoever the pacing holds up next is shown as waiting for the pacing |
| `ApiQueuePacing.GrantsAreSpaced` | backend/api_queue.py:282-313 | consecutive grants of a key are at least the minimum interval apart in every run |
| `ApiQueuePacing.GrantRateBound` | backend/api_queue.py:289-313 | n grants within T seconds satisfy (n - 1) * min_interval <= T |
| `ApiQueuePacing.NoGrantDuringPause` | backend/api_queue.py:289-302 | no grant comes before the end of a pause, and pauses are never shortened |
| `ApiQueuePacing.PausesAreBounded` | backend/api_queue.py:139-153 | pause_until never exceeds now + 3600 seconds |
| `ApiQueuePacing.PauseIsHistory` | backend/api_queue.py:139-153 | after any run pause_until of a key is zero or the largest of time + min(seconds, 3600) over the run's positive pauses of that key |
| `ApiQueuePacing.StepMovesPause` | backend/api_queue.py:139-153 | only a positive pause of the key moves pause_until, and only up to its own end |
| `ApiQueuePacing.PollsCountDown` | backend/api_queue.py:280-314 | in a quiet run the passes of a waiter are at most the seconds that are left, rounded up |
| `ApiQueuePacing.WaiterFinishes` | backend/api_queue.py:280-314 | a waiter with a free slot and no further pause or grant makes at most ceil(max(3600, min_interval)) passes before the one that grants |
| `ApiQueuePacing.WaiterFinishesAfterPause` | backend/api_queue.py:139-314 | when no pause of the history asks for more than s seconds from now, it is at most ceil(max(s, min_interval)) passes |
| `ApiQueuePacing.BlockedPassShows` | backend/api_queue.py:280-302 | a pass without a slot sleeps a quarter of a second for concurrency, else until the window opens, a second at most; and it shows as rate limited if and only if the key is paused for one of five reasons |
| `SourcePacing.PacingKeyIsFixed` | backend/source_rate_limits.py:205-210 | resolving a pacing key twice is resolving it once, and a source is paced as its key |
| `SourcePacing.SpacingKeepsLimits` | backend/ai/llm_pacing.py:44-51 | a spacing that honours both intervals keeps n requests in T seconds under both effective limits |
| `SourcePacing.EffectiveLimitWithinProvider` | backend/ai/llm_pacing.py:44-45 | with a headroom up to 100 percent the effective limit is within the provider's own |
| `LlmRateBound.ProviderInterval` | backend/source_rate_limits.py:278-309 | the base interval of a provider without an override is the largest of its request interval, token interval and floor |
| `LlmRateBound.ProviderLimitsAreKept` | backend/source_rate_limits.py:338-353 | on the free tier, slots within T seconds stay within the effective request and token limits, in any interleaving |
| `LlmRateBound.ProviderQuotaIsKept` | backend/ai/llm_pacing.py:34-51 | and within the provider's published request limit |
| `PremiumPacing.SteadyRun` | backend/api_queue.py:289-313 | the queue can hand out any number of slots exactly the minimum interval apart |
| `PremiumPacing.LimitKeptIff` | backend/ai/llm_pacing.py:44-51 | a limit a minute is kept in every run of the queue if and only if the interval alone keeps it |
| `PremiumPacing.PremiumKeepsLimitsIff` | backend/source_rate_limits.py:312-320 | in runs of the queue the halved interval keeps the effective request limit if and only if the token limit or the floor asked for twice the request interval, and the token limit if and only if the request limit or the floor asked for twice the token interval |
| `PremiumPacing.PremiumExceedsGemini` | backend/ai/llm_pacing.py:93-101 | a run of the queue that hands out 26 slots within a minute on the premium tier, where Gemini's default limit is 15 |
| `PublishedLimits.PacedTogetherIff` | backend/source_rate_limits.py:192-210 | which sources share a queue: the eight GitHub feeds, the two EPSS sources, all rss: feeds, all webhook. targets; every other source is alone |
| `PublishedLimits.NvdLimitIff` | backend/source_rate_limits.py:37-41 | on the free tier the queue keeps NVD to a limit a minute in every run if and only if it is at least 5, or 50 with a key |
| `PublishedLimits.GithubLimitIff` | backend/source_rate_limits.py:44-47 | and GitHub to a limit an hour if and only if it is at least 60, or 5000 with a token |
| `PublishedLimits.ProfileLimitIff` | backend/source_rate_limits.py:62-190 | and any other source with a spacing in its profile to that rate and nothing lower: VirusTotal 4 a minute, OTX 120, the abuse.ch feeds 30, and so on |
| `PublishedLimits.ProviderNumbers` | backend/ai/llm_pacing.py:54-124 | an LLM provider's limits are the operator's or else the published ones, with 85 percent headroom, in catch-up mode at least 95 and at most 100 |
| `PublishedLimits.ProviderLimitIff` | backend/ai/llm_pacing.py:34-51 | on the free tier an LLM provider's queue keeps a limit a minute in every run if and only if its share of requests, its share of tokens or its floor does |
| `PublishedLimits.OverriddenInterval` | backend/ai/llm_pacing.py:49-50 | an interval override counts, but not below the floor of half a second, or a second for OpenRouter |
| `PublishedLimits.TiersAre` | backend/source_rate_limits.py:338-353 | a custom interval stands for its pacing key, premium halves the interval of a source with a key, and everything else is paced as on the free tier; RSS has three slots, webhooks and MITRE two, the others one |
| `Durations.ScannerComplete` | backend/api_queue.py:93-98 | the unit grammar finds every reading from its text |
| `Durations.ScannerSound` | backend/api_queue.py:93-98 | what it finds prints back to the text |
| `Durations.AtMostOneReading` | backend/api_queue.py:93-97 | no text has two readings |
| `Durations.DurationRoundTrip` | backend/api_queue.py:93-106 | any printed choice of hours, minutes and (milli)seconds, with or without a fraction, reads as 3600 h + 60 m + s |
| `Durations.DelaySecondsIff` | backend/api_queue.py:108-120 | a delay-seconds value reads as itself if and only if it is below 10^9 |
| `Durations.NumberReads` | backend/api_queue.py:108-120 | a number waits nothing below zero, itself below 10^9, until that second of the epoch below 10^12, and until that millisecond from there on |
| `Durations.OtherTextReads` | backend/api_queue.py:122-136 | any other text waits until the date it gives, or not at all; infinity waits forever |
| `Durations.StripIs` | backend/api_queue.py:89 | stripping takes all space off both ends and nothing else |
| `Durations.SpaceAndCaseIgnored` | backend/api_queue.py:89-106 | space around a duration and the case of its units do not matter, and blank text waits nothing |
| `Durations.WaitIsNonNegative` | backend/api_queue.py:77-136 | every input that gives a wait gives one that is not negative |
| `CircuitBreaker.Registry.RecordSuccess` | backend/resilient_client.py:101-106 | a success closes the source's breaker and leaves the others alone |
| `CircuitBreaker.Registry.RecordFailure` | backend/resilient_client.py:109-129 | a failure counts, and opens the breaker from the threshold on, for the given or the default cooldown |
| `CircuitBreaker.Registry.ResetCircuit` | backend/resilient_client.py:404-413 | a reset closes a known source's breaker and fails for an unknown one |
| `CircuitBreaker.BreakerIsHistory` | backend/resilient_client.py:101-129 | the counter is the number of failures since the last success or reset, and open_until is the latest failure plus its own or the default cooldown from the threshold on, else zero |
| `CircuitBreaker.HealthShowsLatest` | backend/resilient_client.py:88-129 | the times shown are those of the latest success and failure, and an error is shown if and only if the last event was a failure: its text, cut at 300 characters |
| `CircuitBreaker.OpenIff` | backend/resilient_client.py:132-139 | open if and only if the failures have reached the threshold and the latest one is less than its own or the default cooldown ago |
| `CircuitBreaker.OneFailureReopens` | backend/resilient_client.py:101-129 | after a lapsed cooldown one failure opens it again, and one success closes it |
| `CircuitBreaker.SourcesAreIndependent` | backend/resilient_client.py:88-98 | each source's state is that of its own events in any mixed log |
| `ResilientClient.ExecuteRequestAttempt` | backend/resilient_client.py:158-279 | the retry loop computes the specified ending and trace of one slot |
| `ResilientClient.ResilientRequest` | backend/resilient_client.py:282-360 | the outer loop computes the specified ending and trace of a request |
| `ResilientClient.TriesBounded` | backend/resilient_client.py:176-277 | one to retries + 1 tries; all but the last asked for another, and the last one did not or was the last allowed |
| `SlotOutcomes.TriedAgainIff` | backend/resilient_client.py:187-262 | a try is followed by another if and only if one is left, its sleep is not cancelled, and it met a transport error, a 500, 502, 503, 504 or 429, or a 403 whose header is an integer of at most zero |
| `SlotOutcomes.TryMadeIff` | backend/resilient_client.py:176-262 | a try is made if and only if it is within the limit and every one before it asks for another |
| `SlotOutcomes.ReturnsIff` | backend/resilient_client.py:216-277 | a slot returns an answer if and only if some try within the limit gets it, it is not a 4xx or 5xx, and every earlier try asks for another |
| `SlotOutcomes.RaisesStatusIff` | backend/resilient_client.py:216-272 | it raises a status if and only if some try within the limit gets that 4xx or 5xx, every earlier one asks for another, and it is not tried again or is the last allowed |
| `SlotOutcomes.RaisesTransportIff` | backend/resilient_client.py:187-204 | it raises a transport error if and only if the last try that is allowed meets one |
| `SlotOutcomes.VerdictIs` | backend/resilient_client.py:202-277 | what the breaker hears of each ending; an exhausted 500, 502, 503 or 504 opens it for its delay or the configured cooldown, whichever is longer |
| `SlotOutcomes.DelayIs` | backend/resilient_client.py:142-155 | the backoff starts at 1.5 seconds and doubles, and a Retry-After header replaces it, up to 120 seconds |
| `SlotOutcomes.HeaderReads` | backend/resilient_client.py:246-250 | a printed integer in the quota header reads as itself, with or without a sign |
| `SlotOutcomes.RequestEndsIff` | backend/resilient_client.py:313-360 | a request ends as the first of its rounds does that ends it, and as long as none does it waits |
| `ResilientClient.FallThroughIff` | backend/resilient_client.py:279 | the code after the retry loop is reached if and only if retries is negative |
| `ResilientClient.RequestKeepsDiscipline` | backend/resilient_client.py:313-360 | on every path each slot is released by its own id before the next is acquired, calls happen inside a slot, and a slot gives at most one breaker event |
| `ResilientClient.RequestReleasesAll` | backend/resilient_client.py:313-360 | for the trace of any request: each id was released as often as acquired, at most retries + 1 HTTP calls a slot and one breaker event a slot |
| `ResilientClient.EverySlotReleased` | backend/resilient_client.py:328-360 | in any trace that keeps the discipline, an id is out by one exactly while it is held |
| `ResilientClient.CallsPerSlot` | backend/resilient_client.py:176-187 | any trace that keeps the discipline has at most retries + 1 HTTP calls and one breaker event for each slot |
| `ResilientClient.SlotVerdictIff` | backend/resilient_client.py:202-277 | one breaker event on success and on an exhausted transport or server error, none on a client error, rate limit or cancellation |
| `ResilientClient.DroppedIff` | backend/resilient_client.py:304-305 | a request that waits on rate limits is dropped because of one if and only if a round that it reaches uses up its tries on an exhausted quota not spelt 0 |
| `ResilientClient.WaitingGoesOnIff` | backend/resilient_client.py:348-358 | a waiting request whose slot used up its tries on a 429 or an exhausted quota goes on if and only if it was a 429 or the header is 0 |
| `ResilientClient.LimitEndingIff` | backend/resilient_client.py:234-262 | a slot ends with a rate limit if and only if it used up its tries on one |
| `ResilientClient.WaitingRequestDropped` | backend/resilient_client.py:246-260 | a 403 with -1 requests left ends a waiting request without retries |
| `ResilientClient.TurnedAwayIff` | backend/resilient_client.py:313-326 | a request is turned away by an open circuit if and only if it does not wait and reaches such a round |
| `ClientsInQueue.ClientsKeepTheBooks` | backend/resilient_client.py:328-360 | any number of requests, interleaved with one another and with the queue in any way, are a run of the queue and keep its books: every release is of an id that was handed out |
| `ClientsInQueue.DisciplineAlternates` | backend/resilient_client.py:328-360 | in a trace that keeps the discipline, acquisitions and releases take turns on the same id |
| `CallPacing.WindowCallBound` | backend/source_rate_limits.py:3-5 | with n slots in T seconds a key has at most (retries + 1) * n HTTP calls, and retries more for each slot already active, and (n - 1) * min_interval <= T |
| `CallPacing.CallsSpacedIff` | backend/source_rate_limits.py:3-5 | the HTTP calls of a key are min_interval apart in every run if and only if there are no retries (or the interval is 0) |
| `CallPacing.EarlyRetry` | backend/resilient_client.py:234-243 | a run in which a retry follows its call before the interval is over |
| `CallPacing.CallRunIsRun` | backend/resilient_client.py:176-187 | a run of calls is a run of the queue with tries inside its slots |
| `TokenHistory.TokensStayInRange` | backend/rate_limit.py:86-93 | tokens stay between zero and the capacity |
| `TokenHistory.WindowBound` | backend/rate_limit.py:86-93 | at most rate * (1 + T/60) grants in any stretch of T seconds of one history |
| `TokenHistory.GrantedIff` | backend/rate_limit.py:86-93 | a call is granted if and only if one more grant is within that bound for every stretch of calls that leads up to it |
| `TokenHistory.LevelIsLeastSlack` | backend/rate_limit.py:86-93 | the tokens a call finds are the least that any stretch before it leaves of a full bucket and its refill |
| `TokenHistory.HintIsExact` | backend/rate_limit.py:88-93 | after a denial answering w the next call is granted if and only if w seconds have passed |
| `TokenHistory.HeaderSuffices` | backend/rate_limit.py:171-183 | waiting as long as the whole-second header says is enough |
| `TokenHistory.HeaderIsLeast` | backend/rate_limit.py:171-183 | and no whole number of seconds below the header is, unless it says one |
| `TokenHistory.DenialsCostNothing` | backend/rate_limit.py:86-93 | erasing denied calls from a history changes no other answer |
| `TokenBucket.TokenBucket.constructor` | backend/rate_limit.py:54-63 | the rate is at least one a minute and there are no buckets |
| `TokenBucket.TokenBucket.Acquire` | backend/rate_limit.py:65-93 | the answer and the buckets are those of the key's history, the hits are counted, and the size bound and equal key sets hold after every call |
| `TokenBucket.TokenBucket.MaybePrune` | backend/rate_limit.py:95-119 | below the threshold nothing changes, above it the idle go, in a flood only the most recent stay; hits follow the buckets |
| `TokenBucket.TokenBucket.EvictLeastRecent` | backend/rate_limit.py:110-119 | the 1024 most recently seen keys stay |
| `TokenBucket.PruneIs` | backend/rate_limit.py:95-119 | below 1024 buckets a prune keeps all; otherwise only those used within the last minute, all of them up to 2048, else the 1024 most recent |
| `TokenBucket.PruningIsInvisible` | backend/rate_limit.py:95-109 | a key that is not flood-evicted gets the answers of a bucket that is never dropped |
| `TokenBucket.NoFloodSparesAll` | backend/rate_limit.py:108-119 | while the idle prune suffices no key is evicted |
| `TokenBucket.LimiterWindowBound` | backend/rate_limit.py:65-119 | at most rate * (1 + T/60) grants for a key, whoever else calls |
| `TokenBucket.LimiterGrantedIff` | backend/rate_limit.py:65-119 | and it gets every call that this bound allows, whoever else calls |
| `RateLimitStore.SharedStore.SharedAcquire` | backend/rate_limit_store.py:130-160 | a call loads, recomputes and saves exactly one row |
| `RateLimitStore.StateKeysDiffer` | backend/rate_limit_store.py:28-29 | rows are shared if and only if limiter and client are equal, when no limiter's name holds a colon |
| `RateLimitStore.ColonInNameCollides` | backend/rate_limit_store.py:28-29 | with a colon in a name two clients can share a row |
| `RateLimitStore.SharedStoreAgrees` | backend/rate_limit_store.py:130-160 | sequential calls get the same answers from the shared table as from the pruned memory |
| `RateLimitStore.StoreCountsCalls` | backend/rate_limit_store.py:130-160 | each row counts the calls of its client, granted or not |
| `UsageTracker.Tracker.RecordApiCall` | backend/tracking.py:448-461 | a positive count is buffered and a flush is scheduled unless one is coming |
| `UsageTracker.Tracker.FlushApiUsagePending` | backend/tracking.py:331-341 | a direct flush is registered as waiting for the write lock, under the id that it returns, and leaves the buffer and the scheduled flush alone |
| `UsageTracker.Tracker.Snapshot` | backend/tracking.py:341-348 | the buffer becomes the batch in flight and the task variable is cleared |
| `UsageTracker.Tracker.Commit` | backend/tracking.py:353-358 | the batch is added to the committed counts |
| `UsageTracker.Tracker.EndFlush` | backend/tracking.py:359-378 | a failed write puts the whole batch back and makes sure that a flush is coming |
| `UsageTracker.AddEach` | backend/tracking.py:364-365 | the requeue loop adds every count of the batch to the buffer |
| `UsageTracking.StepConserves` | backend/tracking.py:331-378 | how each step moves the total of a key |
| `UsageTracking.UsageIsConserved` | backend/tracking.py:331-378 | committed + pending + in flight = recorded + what was put back after its commit, in every interleaving |
| `UsageTracking.UsageNeverUndercounts` | backend/tracking.py:332-338 | the count never falls below what was recorded, and is exact when no close fails after a commit |
| `UsageTracking.PendingHasFlush` | backend/tracking.py:457-461 | whenever something is pending, the task variable names a flush that has not taken its snapshot |
| `UsageTracking.CanAlwaysDrain` | backend/tracking.py:326-378 | from every reachable state six steps without failure commit everything |
| `UsageTracking.DirectFlushDrains` | backend/tracking.py:331-378 | from every reachable state a direct flush and only the end of the write under way, its own snapshot and its own write leave nothing pending or in flight, and the total of each key committed |
| `UsageTracking.DirectFlushCommits` | backend/tracking.py:331-378 | whatever comes in between, once a direct flush has returned without a failed write of its own, everything recorded before it is committed |
| `UsageTracking.FlushWaitsForBatch` | backend/tracking.py:326-329 | the first record schedules a flush that takes nothing before it wakes up, and further records schedule none |
| `Freshness.DegreeFactorFalls` | backend/correlation/freshness.py:38-42 | the degree factor is in (0, 1] and never rises with the degree |
| `Freshness.DegreeFactorAt` | backend/correlation/freshness.py:38-42 | the factor is 1 up to three CVEs and 1/(1 + k) at 3 * 2^k of them |
| `Freshness.FreshnessFactorFalls` | backend/correlation/freshness.py:45-49 | an older observation never has the greater factor, and it stays in [0, 1] |
| `Freshness.FreshnessAtHalfLives` | backend/correlation/freshness.py:45-49 | at n half-lives the factor is the rounding of 1/2^n, or of the floor if that is greater |
| `Freshness.HalfLives` | backend/correlation/config.py:13-18 | the half-lives are 30, 60, 120 and 365 days for addresses, URLs, domains and hashes, unless the operator sets another, at least a day |
| `Freshness.DecayComposes` | backend/correlation/freshness.py:45-49 | without a floor the decay over two stretches of time is the product of the decays |
| `Freshness.FreshnessAfterHalfLife` | backend/correlation/freshness.py:45-49 | from one half-life on the factor is at most one half or the floor |
| `Freshness.CorroborationFactorGrows` | backend/correlation/freshness.py:60-67 | more corroboration never lowers the factor, which is 1 if and only if the count is at least 3 |
| `Freshness.CorroborationFactorAt` | backend/correlation/freshness.py:60-67 | the factor is 0.8 up to a count of one, 0.9 where (1 + k)^2 = 8, and 1 from three on |
| `Freshness.NumericLevelMonotone` | backend/correlation/freshness.py:70-83 | score and level are monotone in all three factors |
| `Confidence.ConfirmedConfidence` | backend/correlation/confidence.py:57-91 | the level and reason after type and confirmations |
| `Confidence.RuleConfidence` | backend/correlation/confidence.py:93-106 | the level and reason after the hub rule; a degree factor is listed if and only if there are more than ten CVEs, or more than three and the rule lowered the level |
| `Confidence.RuleLevelIs` | backend/correlation/confidence.py:57-106 | the level of the rules as a number: 2, 1 or 0 for the type, one more or less for each confirmation within 0 and 2, one less for a hub and nothing left for a big one |
| `Confidence.ConfidenceForIocEdge` | backend/correlation/confidence.py:34-152 | the procedure returns the specified level and reason, its first and last two factors, and a reason that is the last factor's exactly for noise or when the numeric level lowered the rules |
| `Confidence.LastFactorExplainsIff` | backend/correlation/confidence.py:53-55 | the reason is noise or freshness if and only if the edge is noise or the numeric level lowered the rules |
| `Confidence.ReasonIff` | backend/correlation/confidence.py:67-133 | each of the five reasons is given if and only if its case applies and no case before it does |
| `Confidence.HubReasonIsNotLast` | backend/correlation/confidence.py:97-100 | for eleven CVEs the reason is the hub, not the last factor's |
| `Confidence.SourcesOf` | backend/correlation/confidence.py:116-117 | the distinct sources that receipts with a colon name |
| `Confidence.ClosedForm` | backend/correlation/confidence.py:127-133 | with a receipt the level is the numeric one, without it the lower of rule and numeric |
| `Confidence.CorroborationKGrows` | backend/correlation/confidence.py:114-119 | adding receipts never lowers the count |
| `Confidence.CorroborationKIs` | backend/correlation/confidence.py:114-119 | the count is one and half of the receipts and distinct sources together |
| `Confidence.PrefixIs` | backend/correlation/confidence.py:116-117 | a receipt names what stands before its first colon |
| `Confidence.LevelFallsWithDegree` | backend/correlation/confidence.py:97-133 | more sharing never raises the level |
| `Confidence.LevelFallsWithAge` | backend/correlation/confidence.py:108-133 | an older observation never raises the level |
| `Confidence.PlainLevelIff` | backend/correlation/freshness.py:70-83 | without confirmation, sharing or receipts a hash is high if and only if 0.72 times its freshness is at least 0.65 and low below 0.4; a domain or URL is medium if and only if 0.48 or 0.52 times it is at least 0.4 |
| `Confidence.OldHash` | backend/correlation/confidence.py:108-133 | an uncorroborated hash is not high from 365 days on, however it is confirmed, when the floor is at most 0.9, and low when it is at most 0.5 |
| `Confidence.LevelGrowsWithReceipts` | backend/correlation/confidence.py:114-133 | adding receipts, the first one included, never lowers the level |
| `Confidence.HubCeiling` | backend/correlation/confidence.py:97-133 | more than ten CVEs: always low, whatever raises the level later; more than three: never high |
| `Confidence.TypeCeiling` | backend/correlation/confidence.py:61-133 | an address or any type other than hash, domain and URL is always low, a domain never high |
| `Confidence.UrlHighIff` | backend/correlation/confidence.py:65-133 | a URL is high if and only if degree <= 3, freshness is 1 and the count is at least 3 |
| `Confidence.HubRescuedIff` | backend/correlation/confidence.py:47-51 | a hub is raised above its rule level if and only if it has at most ten CVEs, a receipt and a higher numeric level |
| `Confidence.HubRescued` | backend/correlation/confidence.py:101-133 | a fresh domain of four CVEs with two sources is such a hub |
| `Confidence.HighStillExplainedIff` | backend/correlation/confidence.py:127-133 | a high level has a reason why it is not higher if and only if GreyNoise was benign and the rules already said high |
| `Confidence.HighExplainedByNoise` | backend/correlation/confidence.py:82-88 | a fresh hash called benign that MalwareBazaar knows is high with a reason why it is not higher |
| `Confidence.PeerLevel` | backend/correlation/confidence.py:155-207 | a peer has the level of its best edge, and the reason of an edge at that level, if any has one |
| `Confidence.ReasonIsFirst` | backend/correlation/confidence.py:204-208 | the reason is that of the first edge at the level that has one |
| `Classification.LastRowWins` | backend/blocklist/classify.py:30-38 | the index holds exactly the hosts that some row names, each with the last such row |
| `Classification.AnyRowExcludes` | backend/blocklist/build.py:229-234 | the excluded hosts are exactly those that some enabled row of an exclusion class names |
| `Classification.ExcludedIffLastRow` | backend/blocklist/classify.py:41-90 | the export takes a host for excluded if and only if the last row that names it excludes it |
| `Classification.ExclusionsAgreeIff` | backend/blocklist/build.py:221-234 | export and corroboration lookup exclude the same hosts if and only if no excluding row is overruled by a later row of the same canonical host |
| `Classification.DistinctHostsAgree` | backend/blocklist/build.py:221-234 | rows with different canonical hosts never overrule one another |
| `Classification.OverruledExclusion` | backend/blocklist/build.py:221-234 | two spellings of one host of which the second is disabled: excluded for the lookup, not for the export |
| `Classification.UnknownIff` | backend/blocklist/classify.py:48-80 | a host reads as unknown if and only if it is blank, unnamed, or its last row says so; a disabled row excludes nothing |
| `Classification.DisabledKeepsClass` | backend/blocklist/classify.py:71-80 | a disabled row keeps its class |
| `Classification.ClassifiedAs` | backend/blocklist/classify.py:41-80 | a classification shows the canonical host, and class and state of the last row that names it |
| `BlocklistBuilder.IndexInfra` | backend/blocklist/build.py:221-234 | the loop builds the index in which the last row of a host wins, and the set of hosts that some enabled row excludes, both in terms of the rows |
| `BlocklistBuilder.GroupRows` | backend/blocklist/build.py:240-251 | each candidate domain's evidence in row order, and no empty group |
| `BlocklistBuilder.SortedSet` | backend/blocklist/build.py:257-267 | the keys in strictly increasing order |
| `BlocklistBuilder.CatalogReceipts` | backend/blocklist/build.py:186-194 | exactly the receipts of the hits, each once, in first-seen order: more hits only add to the end |
| `BlocklistBuilder.OtxConfidence` | backend/blocklist/build.py:379-384 | the edge confidence at the age of the earliest OTX observation |
| `BlocklistBuilder.JudgeCandidate` | backend/blocklist/build.py:269-428 | the branches of the loop body give the record of the specification |
| `BlocklistBuilder.JudgeAll` | backend/blocklist/build.py:265-428 | the loop fills the two lists with the eligible and the other records, in order |
| `BlocklistBuilder.SortChangesNothing` | backend/blocklist/build.py:430-431 | the final sorts by domain leave the lists as they are |
| `BlocklistBuilder.BuildBlocklist` | backend/blocklist/build.py:212-464 | the loops compute the specified payload |
| `BlocklistSoundness.JudgeSound` | backend/blocklist/build.py:286-428 | when a candidate is eligible, in which forms, and at which confidence without catalog evidence |
| `BlocklistSoundness.OtxNeverHigh` | backend/blocklist/build.py:379-384 | OTX confidence is never high |
| `BlocklistOtx.OtxMediumIff` | backend/blocklist/build.py:379-405 | OTX evidence is medium if and only if 0.6 times the freshness of its earliest observation times the corroboration factor of the receipts is at least 0.4, else low |
| `BlocklistOtx.ExportedIff` | backend/blocklist/build.py:286-428 | a candidate is exported if and only if it is not suppressed and has catalog evidence, or hits and an OTX score of at least 0.4 |
| `BlocklistOtx.FreshIsExported` | backend/blocklist/build.py:357-428 | a corroborated candidate whose OTX observations are undated or not past is exported unless it is suppressed |
| `BlocklistOtx.OldIsExcluded` | backend/blocklist/build.py:357-405 | one that rests on OTX observations of at least 120 days ago alone is excluded, with the default half-life and a floor of at most one half |
| `BlocklistOtx.OtxRecordFields` | backend/blocklist/build.py:357-428 | without catalog evidence: which reason applies when, the highest number of the hits if exported and zero if not, and the sources of the hits that counted |
| `BlocklistOtx.CatalogRecordFields` | backend/blocklist/build.py:286-355 | with catalog evidence: the reason, and corroborating sources only when OTX has the domain too |
| `BlocklistOtx.HitsAre` | backend/blocklist/build.py:253-262 | the hits come from one lookup for the sorted OTX domains that is told every host some row excludes |
| `BlocklistSoundness.Partition` | backend/blocklist/build.py:267-431 | every candidate domain is in exactly one of the two lists, exactly once, in strict order, and the counts are theirs |
| `BlocklistConservation.EvidenceIsConserved` | backend/blocklist/build.py:237-464 | all records together hold exactly one piece of evidence for each catalog and OTX row whose host is a domain |
| `BlocklistConservation.CatalogRowIsKept` | backend/blocklist/build.py:55-68 | such a catalog row is evidence, with its own values, of the record of its host's domain |
| `BlocklistConservation.OtxRowIsKept` | backend/blocklist/build.py:71-83 | and so is such an OTX row |
| `BlocklistConservation.EvidenceIsGroups` | backend/blocklist/build.py:272 | a record's evidence is that of its domain, ordered by source, reference, pulse and times |
| `BlocklistSoundness.ExportIsSound` | backend/blocklist/classify.py:83-112 | an exported record is eligible as a domain if and only if the last infrastructure row of its host does not exclude it, as a URL if and only if its indicator is one, and OTX-only ones have catalog corroboration at medium |
| `BlocklistSoundness.NoExcludedDomain` | backend/blocklist/classify.py:83-112 | when no excluding row is overruled, no exported domain has any row that excludes it |
| `BlocklistOrder.EvidencePermutes` | backend/blocklist/build.py:169-183 | stable sorting hides permutations within the catalog and within the OTX evidence when neither has ties |
| `BlocklistOrder.EarliestPermutes` | backend/blocklist/build.py:86-96 | the earliest observation does not depend on the order |
| `BlocklistOrder.OrderIndependence` | backend/blocklist/build.py:219-464 | without ties, and when the infrastructure rows of a candidate agree, the whole payload is the same for every order of the rows of all three queries |
| `BlocklistOrder.TieShows` | backend/blocklist/build.py:169-183 | wherever two different rows tie, exchanging them changes what the sort sees |
| `BlocklistOrder.OrderInvisibleIff` | backend/blocklist/build.py:169-464 | the payload is independent of the order of the rows of all three queries if and only if no two different evidence rows of a candidate tie within one query and the infrastructure rows that name a candidate agree on it |
| `BlocklistOrder.DisagreementShows` | backend/blocklist/build.py:221-234 | infrastructure rows that disagree on a candidate have an order that shows in the payload |
| `BlocklistExamples.PulseRowsTie` | backend/blocklist/build.py:169-183 | two rows of one OTX pulse that tie, and whose order shows |
| `BlocklistExamples.InfraOrderShows` | backend/db/blocklist.py:61-65 | two infrastructure rows of one host whose order shows |
| `BlocklistRecord.ExactIocIsUpstream` | backend/blocklist/build.py:113-148 | a candidate is a URL if and only if some evidence has the type or a scheme, and its exact indicator is the raw value, or else the value, of the least such row, never made up from the domain |
| `BlocklistRecord.RecordSummarises` | backend/blocklist/build.py:274-284 | the lists of a record hold exactly the values its evidence mentions, and its times are the earliest and the latest mentioned, whatever the verdict |
| `BlocklistRecord.CatalogConfidence` | backend/blocklist/build.py:286-355 | with catalog evidence the confidence is that of the highest upstream number, except that corroborated OTX evidence replaces it by one that is never high |
| `BlocklistExport.CollectLines` | backend/blocklist/serialize.py:44-55 | the loop collects exactly the lines of the matching records |
| `BlocklistExport.TxtMembers` | backend/blocklist/serialize.py:47-56 | the sorted lines are exactly what the matching records contribute |
| `BlocklistExport.ListsExactly` | backend/blocklist/serialize.py:44-56 | the sorted lines are the domains of the selected records, or in URL mode their exact URLs that are not blank, and nothing else |
| `BlocklistExport.ToTxt` | backend/blocklist/serialize.py:44-66 | the text is the header and the sorted lines, each ended by a newline |
| `BlocklistExport.TxtReadsBackIff` | backend/blocklist/serialize.py:3-10 | a reader that skips comments and blanks gets back the lines if and only if none is blank, a comment, or has a newline |
| `BlocklistExport.HeaderSays` | backend/blocklist/serialize.py:57-64 | the text starts with five comments that give the time, the mode and the two counts |
| `BlocklistExport.BuiltRecord` | backend/blocklist/serialize.py:30-37 | what each mode selects of a build, in terms of classification and kind |
| `BlocklistExport.ModeParsedIff` | backend/blocklist/serialize.py:23-27 | a mode is one of three names, and domains when it is missing or empty |
| `BlocklistExport.ModeCounts` | backend/blocklist/serialize.py:30-41 | the metadata counts are those of the modes, and mode all is the union of the other two and every eligible record |
| `BlocklistExport.DomainListIsClean` | backend/blocklist/serialize.py:44-55 | the domain list never names a host that its last infrastructure row excludes; the list of mode all does if and only if some record is eligible only as a URL |
| `BlocklistExport.NoHostOfExclusion` | backend/blocklist/serialize.py:44-55 | when no excluding row is overruled, the domain list names no host that any row excludes |
| `BlocklistExamples.ExcludedHostListed` | backend/blocklist/serialize.py:54-55 | a URL on an excluded host: mode all prints the host |
| `BlocklistExport.TxtRouteRefusesAll` | backend/routers/admin/blocklist.py:101-122 | the text route never serves mode all and otherwise accepts what the other routes accept |
| `BlocklistExport.HeaderCountIff` | backend/blocklist/serialize.py:50-66 | the header's number is the number of lines if and only if no selected URL is blank |
| `BlocklistExamples.BlankUrlCounted` | backend/blocklist/serialize.py:50-58 | a row with a blank URL is counted and not printed |
| `BlocklistExport.EscapeMergesIff` | backend/blocklist/serialize.py:69-78 | an escaped cell never starts with =, +, - or @, any other is left alone, and when two values escape alike |
| `EpssMovers.BuildEpssMovers` | backend/brief/service.py:135-156 | the loop and sort give the top of the candidate rises |
| `EpssMovers.CandidateScore` | backend/brief/service.py:76-99 | a row is a mover if and only if both values parse and the rounded rise is positive, a missing value being zero |
| `BriefScores.RisesSurface` | backend/brief/service.py:76-99 | a row whose values read as numbers, a missing one as zero, is a mover if they rise by more than half of the sixth decimal; its score is the rounded rise and its item shows both values |
| `BriefScores.UnreadableIsNoMover` | backend/brief/service.py:84-97 | a value that does not read as a number gives no mover |
| `EpssMovers.MoversAreLargest` | backend/brief/service.py:135-156 | the section lists rises only, largest first, none left out is larger, and the queue scores them by their rise |
| `BriefBuilder.FillIn` | backend/brief/service.py:366-368 | the loop over the fields, in any order, fills exactly the blanks |
| `BriefBuilder.Item.MergeIn` | backend/brief/service.py:364-368 | the entry becomes the merge and the merged item is not modified |
| `BriefBuilder.Item.Priority` | backend/brief/service.py:328-352 | the accumulated score is the specified one |
| `BriefScores.SingleReasons` | backend/brief/service.py:328-345 | what a reason is worth alone: 90 for a new KEV entry, 100 and up to 14 days for one that is due, 70 and the percent for a rise |
| `BriefScores.StackMatch` | backend/brief/service.py:345-351 | a stack match is worth 60, 15 more on the KEV list, and 20 times its EPSS score |
| `BriefScores.ReasonsAdd` | backend/brief/service.py:328-352 | different reasons add up |
| `BriefScores.OtherReasonsAddNothing` | backend/brief/service.py:328-352 | only which of the four reasons are there counts, not their number or order |
| `BriefBuilder.CollectItems` | backend/brief/service.py:355-370 | the dictionary holds the merged entries, all of them new objects, and campaigns are skipped |
| `BriefBuilder.BuildActionQueue` | backend/brief/service.py:355-372 | the queue is the specified one, its items are new, and the sections are left as they were |
| `BriefScores.QueuedItems` | backend/brief/service.py:355-360 | the queue is built from the items of all sections but the campaigns, in order |
| `ActionQueue.ReasonsKept` | backend/brief/service.py:361-370 | the reasons of an entry in terms of all items of its CVE |
| `ActionQueue.FieldsKept` | backend/brief/service.py:366-370 | every field has the first value that is not blank, and every field of an item is kept |
| `BriefScores.SecondFillsBlanks` | backend/brief/service.py:366-368 | a second item fills a field only if it is missing, None, or an empty text or list; zero and False stay |
| `ActionQueue.QueueIsTop` | backend/brief/service.py:371-372 | distinct CVEs, descending scores, as many as the limit allows, and none left out scores above one that is kept |
| `ActionQueue.TiesByFirstMention` | backend/brief/service.py:355-372 | CVEs of equal score stand in the queue in the order in which the sections first mention them |
| `ActionQueue.OrderIsFirstMention` | backend/brief/service.py:355-370 | the dictionary keeps its CVEs in the order of their first mention |
| `ActionQueue.EntryMergesMentions` | backend/brief/service.py:358-370 | each item carries the first-seen union of its reasons, without duplicates if and only if it was mentioned twice or had none |
| `ActionQueue.RepeatedReasonKept` | backend/brief/service.py:369-370 | an item with a repeated reason that is mentioned once keeps it |
| `ActionQueue.MergingNeverLowersTheScore` | backend/brief/service.py:328-370 | merging another item into an entry never lowers its score, when the EPSS numbers are not negative |
| `ActionQueue.MoreItemsNeverLowerAScore` | backend/brief/service.py:355-370 | nor do any further items: the score of an entry only ever grows |
| `Ranking.SortDescSorts` | backend/brief/service.py:371 | sorting by descending score is a stable permutation |
| `Ranking.TiesKeepOrder` | backend/brief/service.py:371 | items of equal score stand in the ranking in the order of the list |
| `Ranking.DedupAbsorbs` | backend/brief/service.py:364-365 | removing duplicates early makes no difference |
| `Ranking.DedupExtends` | backend/brief/service.py:364 | the order is that of first occurrences: what comes later only adds to the end |
| `Ordering.SortBySorts` | backend/blocklist/build.py:181-183 | sorting by a key is a stable permutation into order |
| `Ordering.LexLeIff` | backend/blocklist/build.py:169-183 | tuples and strings are ordered by their first difference, and a prefix comes first |
| `Ordering.StrLeIff` | backend/blocklist/build.py:181-183 | for strings that is the lower code point |
| `Ordering.SortedUnique` | backend/blocklist/build.py:181-183 | a sorted list is determined by the order within its keys |

## Left out

- Floating-point range and rounding: times, tokens and scores are reals; four-place rounding is any monotone rounding to the nearest such number, however it breaks ties, and six-place rounding a parameter that RisesSurface takes to be one.
- WaitIsNonNegative: does not model the parsing of HTTP dates, which is a parameter, nor infinities.
- DurationRoundTrip: does not model digits outside ASCII or other case folding of the unit letters than ASCII.
- SharedStoreAgrees: does not model concurrent workers on the shared table, since load and save are not atomic together, nor switching between the stores in a run.
- LimiterWindowBound: does not bound a key that a flood evicts, which deliberately restarts full.
- UsageIsConserved: does not model the cancellation of a flush in mid-write or a shutdown; only exceptions are caught there.
- SecondReleaseIsNoOp: does not model random ids that repeat.
- QueueAccounting: does not model callers that release an id of another key; ReleaseKeepsBooksIff says what that breaks.
- GrantRateBound: does not count retries inside a slot, which the code does not pace; WindowCallBound does.
- WindowCallBound: does not model the time between a grant and its first HTTP call, nor how long a call takes: a call has one time, and the first is that of its slot.
- ConfidenceForIocEdge: does not model the texts of the factors, and reasons are tags.
- PeerLevel: does not model the merged evidence fields and factors of aggregate_infrastructure_confidence.
- BuildBlocklist: does not model confidence_factors in the records nor the three queries; host normalisation, corroboration and timestamp parsing are parameters.
- BuildActionQueue: does not model sharing below the entries of an item (its copies are shallow), and reads a field value of another type than the score expects (a numeric text, say) as absent.
- CSV rows (to_csv): one row for each selected record, which would only add easy members; the cell escape is modelled.
- Branches of apply_rate_limit_headers: each of them only schedules a pause, and pauses are modelled for every length and reason.
- Queue status, labels, health snapshots, logging and metering: display only.
- Campaign confidence and attribution conflicts: table lookups.
- Quota warnings and cached usage figures: advisory reads that may lag a flush.
- HTTP, database, routers other than the export mode check, scheduler jobs, authentication, LLM clients and prompts: plumbing around the modelled logic.
