# LoxyRouter admission and routing, verified

A Dafny model of the part of LoxyRouter that decides which request runs where: the admission gate,
the backend slots and the retry loop that sits between them, the scheduler, and the small cores that
feed them (latency average, token counter, conversation store, concurrency sizing).

## What is modelled

* **The gate** (`gate.go`). `GateSpec` holds one function for each section of code that runs under the
  mutex. `Gates` is the class, with channels, an array of queues and a counter that change in place;
  every method is proved equal to the function for its section. `GateProtocol` runs any number of
  requests through the same functions, with the limit reads, the select, the cancellation and the gap
  between unlocking and releasing as steps of their own. `GateOwnership`, `GateLimits`, `GateOrder` and
  `GateProgress` prove what every run keeps.
* **Backend slots and the handler** (`backend.go`, `proxy.go`). `Backends` holds the objects.
  `WholeSystem` puts the gate and the slots together: the scan over the backends, the limit read, the
  load and the swap of a reservation, forwarding and the return of the slot are separate steps of any
  number of requests, and the scraper may store new limits in between. `SystemDrain`, `Reservations`
  and `Refusals` build on it.
* **The scheduler and the retry loop** (`scheduler.go`, `proxy.go`). `Scheduling` and `Retrying` are
  functions of what is observed; every read has a value of its own, so that the general results hold
  whatever changes in between. `Schedulers` and `Proxies` are the classes, with the loops of the
  program, proved against those functions for a request that is alone.
* **The rest**: `MovingAverage` (with a step machine of its own for the swap loop), `Tokens`,
  `Conversations`, `Scraping`, `ModelNames`, `States`. `Sums`, `Quotients` and `Options` are helpers.

A thread of a step machine is one request and is named by its index; a backend is named by its index
in the pool, which never changes. Atomic operations are sequentially consistent steps. The clock, the
value of the limit function, the answer of a plugin, the outcome of forwarding and the polls of a
backend are parameters.

## Where comments and code part

* `main.go:46-50` says that the gate never rejects while a backend is free and never admits past real
  capacity. The gate counts its own slots, and a request owns one before it has reserved a backend and
  after it has returned it. So even while the limit does not change a caller is queued or rejected
  beside a free backend (`Refusals.RejectedBesideIdleBackend`), and exactly when some owner of a gate
  slot is not using it at a backend (`Refusals.TurnedAwayBesideRoom`). What a constant limit does give
  is that nobody waits and nobody is rejected while a slot of the gate is free
  (`GateLimits.WorkConservation`), and that capacity is not exceeded (`WholeSystem.Pigeonhole`).
* While the limit changes, the gate also rejects beside free slots of its own
  (`GateLimits.GrownLimitRejectsBesideFreeSlot`): a rejection looks at the queue of the tier only
  (`GateLimits.RejectionIffFull`). And it admits past the limit in force, either by handing over a slot
  (`GateLimits.ShrunkLimitAdmitsPastCapacity`) or on the fast path, whose limit was read before the lock
  was taken (`GateLimits.StaleLimitAdmitsPastCapacity`). `GateLimits.AdmissionPastLimit` says exactly
  when; what survives any change of the limit is `GateOwnership.Ownership` and
  `GateLimits.AdmissionBounded`.
* The same comment says that an unlimited backend makes the gate a no-op. The code substitutes a very
  large limit and keeps counting (`Scraping.GateLimitFromPool`). That lets everybody in if it was so
  from the start (`GateLimits.SentinelThroughout`), but a caller may be rejected if somebody has waited
  since before (`GateLimits.SentinelRejects`); `GateLimits.SentinelAdmits` says exactly when one is let
  in.
* `backend.go:76-79` says that callers can never push inflight past the limit, and `README.md:176` of the
  program that the cap is never exceeded. For a configured cap that holds
  (`WholeSystem.SlotConservation`). A limit that the scraper stores is read before the swap and may have
  shrunk by then (`Reservations.SwapPastNewLimit`, and exactly when: `Reservations.ReservationPastLimit`);
  what survives is `Reservations.ReservationsBounded`.
* `scraper.go:90-93` says that a backend without a configured cap is never left unlimited. One whose cap
  is negative is: it counts as uncapped, but is never sized (`Scraping.PolledIsLimited`).
* `README.md:38` of the program says that the VRAM guard refuses to route to a backend near its limit. A
  plugin bypasses the guard (`Scheduling.GuardBypass`).
* `proxy.go:85-88` reads as if a lost race only cost a request one backend. The backend stays excluded,
  like one whose forward failed, so the request may be refused although it has become free
  (`Refusals.RefusedBesideFreeSlot`); and the VRAM guard may rule out idle backends
  (`Refusals.GuardRefusesBesideIdleBackends`). While the capacity is fixed every refusal inside the gate
  happens beside a backend with room; `Refusals.RefusalExact` and `Refusals.RefusedBesideRoomExact` say
  exactly when there is one, with the guard and the plugin among the causes.
* `scraper.go:93-94` says that a limit learned while a model was loaded survives its unloading. Polls of
  one backend may overlap, and then a default that was decided on earlier replaces it
  (`Scraping.LateSeedOverwrites`, and exactly when: `Scraping.UnloadKeepsLimit`).
* `scheduler.go:203-204` says that among cold candidates an empty backend wins. A longer queue can outweigh
  that (`Scheduling.EmptyLoses`); the exact comparison is `Scheduling.ColdThreshold`.
* `README.md:172` of the program lets affinity prefer any healthy backend. The code also wants it warm for
  the model and below the VRAM threshold (`Scheduling.PickFrozen`).
* `README.md:173-175` of the program gives score formulas without the assumed answer length and without
  the VRAM factor of the cold penalty. The model follows `scheduler.go:187-206`.

## Model

| member | source | states |
|---|---|---|
| Gates.Gate.StartAcquire | gate.go:90-113 | a disabled gate admits and changes nothing; an enabled one does exactly the protocol's entry section, and a waiter gets a fresh open channel |
| Gates.Gate.TryEnter | gate.go:96-113 | the locked section of Acquire equals the entry function, and only a queued caller's channel joins the waiters |
| Gates.Gate.Withdraw | gate.go:123-141 | a cancelled waiter leaves the queue exactly if its channel is still open; queued channels stay open and in one place |
| Gates.Gate.Release | gate.go:147-165 | the slot goes to the head of the first non-empty tier, whose channel is closed once and leaves the waiters; otherwise the counter drops |
| Gates.Gate.AbandonWait | gate.go:119-142 | the whole cancel path either removes the waiter or passes on the slot that arrived too late, never both |
| GateOwnership.StepKeepsInv | gate.go:90-165 | every step of every thread keeps the ownership invariant |
| GateOwnership.Ownership | gate.go:90-165 | in every reachable state inflight is the number of slot owners, queues respect their limits, and while anybody waits an owner exists; a disabled gate stays untouched |
| GateOwnership.ChannelPlace | gate.go:111-141 | a channel is in exactly one place of its own tier's queue while open and in none once closed, so the cancel loop finds it |
| GateLimits.WorkConservation | gate.go:98-109 | under a constant limit the gate stays within it, anybody waiting means every slot is taken, and a caller is rejected exactly when all slots are taken and its queue is full |
| GateLimits.AdmissionBounded | gate.go:77-103 | whatever the limit does, inflight never exceeds the largest limit a fast-path admission was decided against |
| GateLimits.AdmissionPastLimit | gate.go:90-165 | over all steps and for any limit in force: somebody is admitted past it exactly by a fast path decided against a larger limit, or by a hand-off while inflight is above it |
| GateLimits.RejectionIffFull | gate.go:98-109 | a caller is rejected exactly when its tier's queue is full, however many slots are free under the limit it read or the one in force |
| GateLimits.SentinelAdmits | main.go:48-50 | a caller that finds some backend unlimited is let in exactly if nobody waits, short of the sentinel |
| GateLimits.SentinelThroughout | main.go:48-50 | with no limit from the start everybody is let in at once, short of the sentinel |
| GateLimits.SentinelRejects | main.go:48-50 | a run in which a caller is rejected although it finds the gate without a limit |
| GateLimits.GrownLimitRejectsBesideFreeSlot | main.go:46-50 | a run in which the limit grows and a request is rejected, another left waiting, beside a free slot |
| GateLimits.ShrunkLimitAdmitsPastCapacity | main.go:46-50 | a run in which the limit shrinks and a waiter is started while inflight is above the limit |
| GateLimits.StaleLimitAdmitsPastCapacity | gate.go:91-103 | a run in which the fast path admits past the limit in force, with nobody waiting and no Release |
| GateLimits.LateCancelReturnsSlot | gate.go:119-133 | a run in which a client leaves after its request was woken, and the slot is returned by one Release |
| GateOrder.QueueIsLog | gate.go:111-139 | at every moment each queue is the log of its joiners without those who left, in joining order; no channel is closed twice and nobody who withdrew is woken |
| GateOrder.WakeOrder | gate.go:155-163 | a Release wakes one waiter only, of the highest tier in which anybody waits, and everybody who joined that tier earlier was woken or has withdrawn |
| GateProgress.BoundedBypass | gate.go:112-165 | with nobody joining a higher tier, each Release moves a waiter forward, so it leaves the queue by the Release after the number ahead of it, whatever else happens |
| GateProgress.NoStuckState | gate.go:115-165 | while work is left some thread can move without new requests or disconnects |
| GateProgress.Drain | gate.go:115-165 | without arrivals a run is bounded by the work at its start, and one that cannot go on has an empty gate |
| Backends.Backend.TryReserve | backend.go:81-96 | a slot is claimed exactly when the requests in flight are below the configured cap, or without one below the scraped limit, or nothing limits them; then the counter is one higher, else the same |
| Backends.CapacityIsCeiling | backend.go:51-74 | the capacity check passes exactly if one more request stays within the limit in force; a configured cap makes the scraped one irrelevant |
| Reservations.SequentialReserve | backend.go:81-96 | the limit read, load and swap of the step machine, taken without interference, end as TryReserve promises |
| Backends.Backend.RecordPerTokenMs | backend.go:107-120 | the stored average becomes the average with the sample folded in, and nothing else changes |
| Backends.BackendPool.Available | backend.go:218-226 | the loop returns, in pool order, exactly the backends that are UP, restricted to no models or to this one among others, and below their limit |
| Backends.NewBackendPool | backend.go:162-193 | one distinct object for each configured backend, in order, DOWN, idle and with normalized model names |
| Backends.ServesByNormalName | backend.go:127-134 | a backend serves a request if a configured name and the requested one normalize alike, or none is configured |
| Backends.AvailableExact | backend.go:218-226 | that list holds exactly the UP, supporting backends with capacity, each once, in pool order |
| Backends.BackendPool.TotalConcurrency | backend.go:237-250 | the loop with its early return equals the total: 0 if anything UP is unlimited, else the sum over the UP backends |
| Backends.UpCapacityMeans | backend.go:237-250 | an UP backend counts with its configured cap, else its scraped limit; a DOWN one with nothing |
| Backends.TotalIsZero | backend.go:237-250 | the total is 0 exactly when nothing is UP or something UP is unlimited |
| MovingAverage.TracksExact | backend.go:107-120 | for any samples of at least 1 the exact average minus the stored one is between 0 and 4 |
| MovingAverage.StaysInRange | backend.go:107-120 | the stored average stays between the smallest and the largest sample |
| MovingAverage.Settles | backend.go:107-120 | under a constant sample s the average reaches [s-4, s] within its distance to it and then never moves |
| MovingAverage.Linearizes | backend.go:107-120 | in every interleaving of loads and swaps the stored value is the fold of the samples in commit order, one for each finished updater |
| MovingAverage.FailedSwapHasWinner | backend.go:107-120 | a swap fails only if another updater's swap has succeeded since the load |
| WholeSystem.GateRefined | proxy.go:68-74 | the gate inside the system makes a run of the gate alone, so all results about the gate carry over |
| WholeSystem.SlotConservation | backend.go:81-96 | in every interleaving, also with limits changing, a backend's counter is the number of requests between reservation and return, not negative, and within a configured cap |
| Reservations.ReservationsBounded | backend.go:81-96 | under limits that change, the slots taken of a backend never exceed the largest limit a reservation of it has read, unless one read it as unlimited |
| Reservations.ReservationPastLimit | backend.go:76-96 | over all steps and for any limit in force: a backend's slots go past it exactly by a swap decided against a larger limit, or by a claim that has read it as unlimited |
| Reservations.SwapPastNewLimit | backend.go:76-96 | a run in which a limit shrinks between its read and the swap, and two slots are taken under a limit of 1 |
| Reservations.UncappedWithinStores | backend.go:54-62 | without a configured cap that largest limit, and so the slots taken, stay within any bound on what the scraper stores |
| WholeSystem.QuiescentIsEmpty | proxy.go:91-112 | when no request is inside, all backend counters and the gate's are 0: every way out returns its slot |
| WholeSystem.SlotsWithinGate | proxy.go:68-112 | under any limits, changing or not, the backend slots in use never exceed the counter of an enabled gate |
| WholeSystem.Pigeonhole | proxy.go:68-112 | with capped UP backends and the limit their total, slots in use are within the gate's counter, that within the sum of caps, and an admitted request without a slot leaves some backend free |
| WholeSystem.SingleBackendHasRoom | backend.go:81-96 | with one backend an admitted request's look always sees room and its load is never turned down |
| WholeSystem.FirstPickSucceeds | proxy.go:76-93 | with one backend that serves a request, whatever other requests ask for: it has something tried exactly if a forward of its own failed, and gives up exactly then or if the guard sees the backend near the VRAM limit, once it has looked again |
| SystemDrain.StepConsumesWork | proxy.go:78-112 | every step of a request, also a failed swap, leaves strictly less work in the whole system |
| SystemDrain.SystemNotStuck | proxy.go:68-112 | while a request is left some request can move on its own |
| SystemDrain.SystemDrains | proxy.go:68-164 | without arrivals requests take a bounded number of steps under any scheduling, and in the end all are done and every counter is 0 |
| Refusals.TurnedAwayBesideRoom | main.go:46-50 | with fixed capacity the gate does not admit exactly when all its slots are taken, always if every backend is full, and beside a free backend exactly when some slot owner is not using a backend |
| Refusals.RejectedBesideIdleBackend | main.go:46-50 | a run under a constant limit in which a request is rejected while the only backend is idle |
| Refusals.RefusalExact | scheduler.go:79-154 | at the end of a scan a request gives up exactly if at each backend its reservation was turned down or its forward failed before, or this scan found it full or unfit, or the guard saw it near the VRAM limit; a plugin can refuse exactly if something is left |
| Refusals.RefusedBesideRoomExact | proxy.go:78-93 | with fixed capacity those are exactly the cases in which a request is refused beside a backend with room |
| Refusals.GuardRefusesBesideIdleBackends | scheduler.go:142-145 | a run in which the guard refuses a request while both backends are idle and fit |
| Refusals.RefusedBesideFreeSlot | proxy.go:85-93 | a run with two backends in which the loser of a race is refused while the backend it lost is free |
| Scheduling.PickSound | scheduler.go:79-154 | whatever changes meanwhile, the chosen backend is not excluded and was seen UP, serving and with a free slot, and, unless a plugin named it, with nothing known of its VRAM or less than 90% in use |
| Scheduling.GuardIsThreshold | scheduler.go:213-229 | without a plugin a backend is only chosen below 90% VRAM or with none known, and the guard refuses exactly if everything that could take the request is at 90% or more |
| Scheduling.ChecksMean | scheduler.go:224-250 | the safety check tests the 90% threshold; warm means vLLM, or last seen warm with this very model loaded |
| Scheduling.ReadingsMean | scheduler.go:177-192 | the score works on the larger of own counter and reported queue, the latency or 20 ms, 256 tokens, and the reported VRAM fraction |
| Scheduling.RefusalReasons | scheduler.go:79-154 | each refusal has its exact condition: no candidate; candidates, but the plugin refuses; candidates, none named by the plugin, and none safe or sticky |
| Scheduling.GuardBypass | scheduler.go:95-109 | in a fixed state a backend at the VRAM limit is chosen exactly if the plugin names it |
| Scheduling.PickFrozen | scheduler.go:79-154 | in a fixed state the choice is the warm sticky backend if eligible, else the one before all others, and there is a refusal only if nothing is eligible |
| Scheduling.BestIsFirst | scheduler.go:157-168 | the winner scores above every other candidate, or equal and earlier in the pool |
| Scheduling.LosersIrrelevant | scheduler.go:157-168 | dropping any candidates but the winner leaves the winner unchanged |
| Scheduling.ExpectedPositive | scheduler.go:177-210 | the expected time is positive, so the score is defined |
| Scheduling.SpillThreshold | scheduler.go:187-209 | for equal time per request a warm backend scores above a cold one exactly while its longer queue costs less than the load penalty |
| Scheduling.WarmAgainstCold | scheduler.go:187-206 | between any warm and any cold backend the warm one scores higher exactly if queue and service take less than 25 s plus VRAM surcharge plus the queue of the other |
| Scheduling.ColdThreshold | scheduler.go:201-206 | between any two cold backends the fuller one scores higher exactly if its shorter queue saves more than its VRAM adds to the penalty |
| Scheduling.EmptyLoses | scheduler.go:201-206 | two cold backends of which the half full one scores above the empty one with three requests ahead |
| Scheduling.ColdPrefersEmpty | scheduler.go:201-206 | among equal cold backends the one with less VRAM in use scores higher, and only that one |
| Scheduling.WarmPrefersIdle | scheduler.go:191-199 | among warm backends of equal speed the shorter queue scores higher, and only that one |
| Scheduling.WarmIgnoresLength | scheduler.go:34-38 | which of two warm backends scores higher depends on queue and token latency only, not on the assumed answer length |
| Schedulers.Scheduler.PickExcluding | scheduler.go:79-118 | the method with its loops over the backends returns the specified choice for the state it reads: able to take the request, not excluded, and without a plugin below 90% VRAM |
| Schedulers.Scheduler.BestScore | scheduler.go:157-168 | the loop returns the first candidate of maximal score |
| Retrying.RetrySound | proxy.go:76-93 | under arbitrary interference the loop ends within the number of names, repeats none, and every attempt was seen usable and, unless a plugin named it, VRAM-safe when picked; all but the last were denied a slot or failed, and the last had a slot and gave the ending |
| Retrying.RetryIsStableSort | proxy.go:76-107 | in a fixed state with every forward failing, the attempts are the eligible backends, each once, sticky first, then by falling score with ties in pool order, and the loop ends in a refusal |
| Retrying.StableOrderUnique | scheduler.go:79-168 | there is only one such order |
| Retrying.FirstThatAnswers | proxy.go:78-112 | in general the attempts are the prefix of that order up to the first backend that does not fail, and a refusal means that all failed |
| Proxies.Proxy.Attempt | proxy.go:91-112 | it forwards exactly if there is capacity; a reservation is followed by exactly one return on every outcome, so all backends read as before |
| Proxies.Proxy.ServeHTTP | proxy.go:68-163 | a lone request is let in exactly when the gate has room and nobody waits; its attempts and ending are those of the retry function; gate and counters are left as they were; and without an answer of status 200 to 299 to a client that stayed nothing at all is changed |
| Proxies.OnlyGoodAnswersTeach | proxy.go:133-143 | an error status, a client that left or a refusal moves no latency and pins no conversation |
| Proxies.GoodAnswerTeaches | proxy.go:138-143 | a good answer moves the average of the backend that gave it by one sample and pins the conversation to it, and nothing else |
| Proxies.FollowUpGoesBack | scheduler.go:111-136 | the next request of a conversation within the TTL goes back to that backend if it can take it, has the model loaded and VRAM to spare |
| Tokens.TokenCounter.Observe | proxy.go:263-277 | one read adds its bytes 10 to the newlines, leaves the last 2048 bytes of tail and read together, and notes whether it contains the event marker |
| Tokens.TailIsEnd | proxy.go:273-276 | the tail is as long as the stream up to 2048 bytes, and ends as the stream ends |
| Tokens.TokenCounter.Count | proxy.go:312-326 | the count follows the order of preference and is never below 1 |
| Tokens.TokenCounter.Result | proxy.go:286-310 | tokens and latency are those that the fields, the read count and the elapsed time determine |
| Tokens.DecodeMsMeaning | proxy.go:286-310 | the latency is 0 exactly without a duration and without a streaming window; else it is the largest number of milliseconds per token that fits into the time, at least 1 |
| Tokens.JsonIntField | proxy.go:331-353 | the scanning loops return the integer after the last quoted key, or nothing |
| Tokens.FieldRoundTrip | proxy.go:331-353 | scanning text that contains a printed number after the last occurrence of its key gives the number back |
| Tokens.FieldStands | proxy.go:331-353 | a number that the scanner returns stands in the text after the last key, complete and in range; without the key there is none |
| Tokens.CountMeans | proxy.go:312-326 | positive eval_count, else positive completion_tokens, else half the newlines of events, else the newlines, else 1 |
| Tokens.PromptKeyNeverMatches | proxy.go:332-336 | no occurrence of the quoted eval_count key lies inside a quoted prompt_eval_count key |
| Tokens.TailAbsorbs | proxy.go:273-276 | cutting to the tail after each read gives the tail of the whole |
| Tokens.Stream | proxy.go:213-241 | after any cut of a stream into reads, counts and latency depend on the tail and newlines of all that was observed |
| Tokens.CountIsChunkIndependent | proxy.go:263-326 | a positive eval_count in the last 2048 bytes of a stream is the count under every cut of it |
| Tokens.CompletionIsChunkIndependent | proxy.go:263-326 | likewise completion_tokens, if eval_count does not occur there |
| Tokens.LatencyIsChunkIndependent | proxy.go:263-310 | with eval_duration there too, the latency is duration over count under every cut and whatever the clock says |
| Tokens.NoLatencySignal | proxy.go:280-310 | a stream yields no latency exactly when it came in at most one read and reports no duration |
| Conversations.ConversationStore.Get | conversation.go:32-43 | an entry is returned exactly if it exists and is not older than the TTL |
| Conversations.ConversationStore.Reap | conversation.go:57-65 | the deletion loop leaves exactly the entries within the TTL, as they were |
| Conversations.ReapUnobservable | conversation.go:55-65 | deleting all reaps from a history with a monotone clock changes no answer |
| Conversations.GetFindsLatestSet | conversation.go:32-53 | an answer is the backend of the latest Set for the id if that is within the TTL, else nothing |
| Scraping.LargestThatFits | scraper.go:164-197 | the limit of a GPU is the largest n up to 32 such that n tenths of the model, or n times 256 MB for a tiny one, fit into free memory, at least 1; a CPU has room for half as many |
| Scraping.UnknownSize | scraper.go:165-170 | without a known size of memory or model the limit is 4, or 2 on a CPU |
| Scraping.MoreMemoryMoreSlots | scraper.go:164-197 | the limit is monotone in free memory, and more than one slot always fits |
| Scraping.AutoRange | scraper.go:164-197 | the limit is always between 1 and 32 |
| Scraping.ScrapeOllama | scraper.go:85-141 | the loop stores and reports what the sums, the largest footprint and the seeding rule determine, and changes nothing but the limit |
| Scraping.TallyMeans | scraper.go:105-126 | bytes in use are the VRAM of all models, or their sizes if none uses VRAM; the largest is measured by VRAM, or by size if it uses none |
| Scraping.VLLMStoresTwenty | scraper.go:218-222 | a poll of a vLLM backend without a configured cap stores 20, of a capped one nothing |
| Scraping.ScrapedStaysLimited | scraper.go:95-138 | however polls overlap, an uncapped backend that was polled once keeps a limit between 1 and 32, and a configured cap is never touched |
| Scraping.PolledIsLimited | scraper.go:90-97 | a polled backend has a limit exactly if its configured cap is not negative; with a negative one it stays unlimited |
| Scraping.UnloadKeepsLimit | scraper.go:90-97 | an empty poll leaves a limit alone if its check sees it, and replaces it exactly when another poll stored one between its check and its store |
| Scraping.LateSeedOverwrites | scraper.go:90-97 | a run of two overlapping polls in which a computed limit of 32 is replaced by the default of 4 |
| Scraping.GateLimitFromPool | gate.go:77-85 | the gate's limit is the positive sum of UP capacities when something is UP and nothing UP is unlimited, and the sentinel otherwise |
| GateSpec.LimitMeans | gate.go:69-85 | the limit a call sees, in figures; whether the gate counts does not depend on when the limit is read |
| Scraping.ScrapedPoolGatesOnCapacity | scraper.go:90-97 | once every UP backend is capped or polled, the gate counts exactly their capacity |
| ModelNames.NormalizeIdempotent | scheduler.go:13-19 | for any lower-casing of single characters that respects white space and colons, normalizing twice, as the request path does, is the same as once, and it leaves alone exactly the normal names |
| ModelNames.NormalizeMeans | scheduler.go:13-19 | a name between white space becomes its lower case, with the tag latest if it has none |
| ModelNames.UntaggedIsLatest | scheduler.go:11-12 | a name without a tag and the same name with the tag latest are one model |

## Left out

- Scheduling.Score: real numbers instead of floats, so exact ties may fall differently; measurements are assumed not to be negative.
- Proxies.Proxy.ServeHTTP: the request is alone and the clock stands still while it picks; interleavings are the subject of Retrying.RetrySound and WholeSystem, waiting that of the gate modules.
- WholeSystem.Pigeonhole: needs a configured cap on every backend and all of them UP, because the limit of the gate is otherwise a value of the past.
- GateProgress.BoundedBypass: speaks of waiters that nobody of a higher tier overtakes; background work may starve by design.
- Tokens.CountIsChunkIndependent: covers the exact field; the fallback counts events, and an event marker cut in two by a read is missed.
- ModelNames.Normalize: the other modules lower-case ASCII letters; Unicode case mapping is library behaviour, of which ModelNames.NormalizeIdempotent assumes no more than it states.
- WholeSystem.Apply: a request excludes backends by index, which is the same as by name if names differ.
- SetLimitFunc is called before the first request, as main.go does; switching a gate that is in use is not modelled.
- Each read of a backend inside one check is taken at one moment in WholeSystem; different checks are different moments.
- 64-bit overflow of counters, sizes and sums: mathematical integers, except for the range check of the integer scanner.
- HTTP plumbing, JSON and Prometheus parsing, timeouts, start-up and shutdown: parameters or not part of this model.
- Authentication, metrics, status pages, logging, configuration loading and auto-discovery: no property beyond their bodies.
- Gate.Stats, parsePriority and String: they read and name what is modelled, and nothing depends on them.
