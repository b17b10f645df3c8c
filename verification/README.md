# Blutgang, modelled and proved in Dafny

Blutgang is a caching load balancer for Ethereum JSON-RPC. This project models its stateful core and
proves what it guarantees over whole runs:

- **The reorg-aware cache.** A request has its block tag rewritten to a number, is keyed without its id,
  looked up, and stored on a miss; keys of blocks that can still be reorganised are recorded per block, so
  that a reorg deletes their entries. `Text`, `Json`, `RpcMethod`, `CacheRules` and `Format` model requests
  and their text; `JsonText` shows that the text determines the request; `Database` the database task behind its queue; `HeadCache` the cache itself, as functions
  of its state and as a class proved equal to them; `Transparency` runs it against a chain; `Exactness`
  says what is served and where the guarantee ends, with the requests and answers of `Samples`; `Forward`
  answers one request, retries included.
- **The selector.** `Rpc` (latency window), `Select` (one pick, in place), `SelectRuns` (rate and streak
  limits over runs).
- **The health check.** `Health` (the two lists), `HealthRounds` (exact rounds, reachable states,
  conservation, recovery).
- **The sled wrapper** (`SledDb`) and **WebSocket subscriptions** (`Subscriptions`, `SubscriptionRuns`).

Methods change fields and arrays as the program does, and each is proved equal to a function of the old
state; the lemmas then say what those functions guarantee. `dafny verify dfyconfig.toml` checks everything.

## Assumptions

- The blake3 hash is injective. As the text of a request determines it (`JsonText.TextDeterminesValue`), a key
  is the request itself with a null id. Database calls succeed.
- `cache_query` and every observed head are single steps. Between the answer of a node and the moment it
  reaches the cache anything may happen.
- The upstream's answer depends on the request and the canonical block it names and carries the id it was
  asked with (`Transparency.Honest`). It may fail at any time. Failures and answers about blocks it does not
  know do not pass the gate on results (`Transparency.Allowed`).
- Nothing is assumed of the chain or of the order of events. A block is unsettled when the upstream replaces
  it, or when an answer about it arrives after a reorganisation of it, until a head covers it; a head covers
  the never finalized blocks between itself and the head observed before it. Transparency holds for settled
  blocks. In an orderly run (`Transparency.Orderly`: the chain only grows between heads, heads cover all they
  replace, no answer arrives late) no block is ever unsettled.
- Text is ASCII. JSON numbers are natural. Floating point latencies are reals.
- Clock readings, node answers and disk failures are parameters.

## What the proofs found

- **An answer can arrive too late.** If a reorg is observed between a node's answer and `cache_query`, the
  answer of the replaced block is stored after the eviction and served from then on
  (`Exactness.LateAnswerGoesStale`), until the next head that covers the block (`Transparency.HeadHeals`).
  Storing is safe exactly when no head observed in between was at or below the number of the block, and the
  head before it at or above, with the block above everything finalized (`Exactness.LateAnswerIsFreshIff`).
  The program could check that before `cache_query`; an answer stored at once is always safe.
- **A head above the last one is never a reorg.** `manage_cache` looks for a reorganisation only when a head
  is at or below the last one. A reorganisation to a longer chain, whose head is higher, replaces blocks and
  evicts nothing: after head 1 and a stored answer for block 1, head 2 with another block 1 leaves the old
  answer in place (`Exactness.HigherHeadGoesStale`). So does the first head, as the program starts with head 0
  (`Exactness.FirstHeadGoesStale`). An entry is safe whatever chain a head comes with exactly when its block
  lies between that head and the head before it (`Exactness.HeadIsSafeForEveryChainIff`).
- **A dropped node can be lost for good.** It enters the poverty list without its erroring flag, and the next
  `escape_poverty` discards it for good exactly when no report speaks for it
  (`HealthRounds.DroppedNodeIsLost`).
  `escape_poverty` loses nothing exactly when every poverty node is flagged or cleared
  (`HealthRounds.EscapeConservesIff`).
- **The bound on reopening holds across failures.** It does not need openings and flushes to succeed
  (`SledDb.AtMostATenth`); the time spent in failed attempts is not counted.
- A cacheable request ends its connection without an answer exactly when its block parameter is shorter than
  two characters (`HeadCache.ReorgAwareCache.StoreAnswer`), as in `eth_getBalance` at block `"1"`
  (`Samples.ShortParameterPanics`).
- **Abandoned subscriptions stay registered.** An empty dispatch unregisters the text of the subscription
  id, while registrations go by the text of their parameters. A registration disappears exactly when the two
  texts are equal (`SubscriptionRuns.DispatchIsExact`), which never happens for ids that start with `0x`
  (`SubscriptionRuns.CleanupNeverHappens`, `SubscriptionRuns.AbandonedStaysRegistered`).
- A comment says the id is set to 0 for caching (src/balancer/accept_http.rs:336); the code sets it to null.
  A client gets its own id back exactly when that is a `u64`, and otherwise 0, from the cache
  (`HeadCache.HitRestoresId`) and from a node (`HeadCache.OutgoingRestoresId`) alike, although JSON-RPC
  allows strings (`Exactness.StringIdIsAnsweredAsZero`).

## Model

| member | source | states |
|---|---|---|
| Transparency.EmptyCacheIsTransparent | src/balancer/accept_http.rs:319-364 | from an empty cache, over every interleaving of requests, answers, late answers, failures, heads, finalized numbers and changes of the chain, announced or not, at every moment every request for a settled block is answered from the cache as the upstream would answer it now, id included, or not from the cache |
| Transparency.OrderlyRunsAreTransparent | src/balancer/accept_http.rs:319-364 | the same for every request at all, when heads cover all they replace and no answer arrives after a reorganisation of its block |
| Transparency.CacheIsTransparent | src/balancer/accept_http.rs:163-209 | the first from every state satisfying the invariant |
| Transparency.StepKeepsTracking | src/health/head_cache.rs:41-61 | every event at all, whatever the upstream answers and however the chain changes, keeps: each entry of a block above everything ever finalized is recorded under that block, each record names its block |
| Transparency.RunKeepsTracking | src/health/head_cache.rs:41-61 | the same over every run |
| Transparency.StepKeepsInv | src/balancer/processing.rs:84-134 | every event also keeps: each entry is the stored form of the current answer for its block or the block is unsettled, and each answer under way that no reorganisation covered is from a canonical or an unsettled block |
| Transparency.RunKeepsInv | src/balancer/processing.rs:84-134 | the same over every run |
| Transparency.OrderlyRunSettles | src/health/head_cache.rs:47-50 | orderly runs unsettle no block |
| Transparency.HeadEvictsExactly | src/health/head_cache.rs:47-50 | a head deletes an entry if and only if it is recorded for a block between that head and the one before, which includes every such block that was never finalized; other entries are untouched |
| Transparency.EveryHeadEvicts | src/health/head_cache.rs:69-99 | in every state reachable from an empty cache, with any upstream and any chains, a request whose never finalized block a head covers is not answered from the cache after it, and only entries in the range of the head go |
| Transparency.HeadHeals | src/health/head_cache.rs:47-50 | after any run at all, from the next head that covers the block of a request on, and over every orderly run after it, the request is answered from the cache as the upstream would, or not from the cache |
| Transparency.AnswerKeepsEntries | src/balancer/processing.rs:89-132 | storing an answer whose block is canonical or unsettled keeps the invariant; a failure is not stored |
| Transparency.QueryEffect | src/balancer/processing.rs:84-134 | storing an answer changes at most one entry and one record, both under the number the request names, and nothing for rejected answers |
| Transparency.RecordsStayOpen | src/health/head_cache.rs:53-58 | while finalized numbers do not go back, only blocks not finalized at the last pruning have records |
| Transparency.HeadsPrune | src/health/head_cache.rs:53-58 | over every run whose finalized numbers are not taken back, each head leaves records only of blocks above the finalized number, which it remembers |
| Transparency.FinalizedEntriesStay | src/health/head_cache.rs:105-123 | after pruning, no head evicts the answer for a finalized block |
| Exactness.LateAnswerIsFreshIff | src/balancer/accept_http.rs:274-275 | for every honest upstream whose answers tell its blocks apart, an answer may be stored after any heads and finalized numbers, whatever chains they announce, if and only if none of the heads was taken for a reorganisation of its block |
| Exactness.MarkedIffSeen | src/health/head_cache.rs:47-50 | what transparency asks of a late answer can be told from the observed heads and finalized numbers alone |
| Exactness.ObservedHeadIsSafeIff | src/health/head_cache.rs:47-50 | for every such upstream and after any head and chain, the entry of a block that is not finalized is gone or right if and only if the block did not change or lies between that head and the one before |
| Exactness.LateAnswerGoesStale | src/balancer/accept_http.rs:250-277 | a concrete run: a reorg while an answer is under way makes the cache serve the replaced block |
| Exactness.HeadIsSafeForEveryChainIff | src/health/head_cache.rs:47-50 | an entry for a block that is not finalized is gone or right after a head, whatever chain it comes with, if and only if the block lies between that head and the one before |
| Exactness.FirstHeadGoesStale | src/health/head_cache.rs:34-50 | a concrete run: the first observed head replaces a cached block and is not taken for a reorg |
| Exactness.HigherHeadGoesStale | src/health/head_cache.rs:47-50 | a concrete run: a reorganisation to a longer chain replaces a cached block and is not taken for a reorg |
| Exactness.ServedIff | src/balancer/accept_http.rs:319-364 | after an answer reached the cache, its request is answered from it under any id if and only if it was before, or the request and the answer may be cached |
| Exactness.StoredIsServed | src/balancer/accept_http.rs:181-188 | for every honest upstream, what was stored for a cacheable request is served for it as the answer from its block, with the id restored |
| Exactness.StringIdIsAnsweredAsZero | src/balancer/accept_http.rs:341 | a concrete request with a string id is answered from the cache with the id 0 |
| Samples.SamplePassesGate | src/balancer/selection/cache_rules.rs:12-41 | a balance request with a block text that is too short for a word passes the gate on requests |
| Samples.AnswerPassesGate | src/balancer/selection/cache_rules.rs:66-76 | an answer with a quantity as its result passes the gate on results, whatever its number and id |
| Samples.ShortParameterPanics | src/balancer/format.rs:115 | a concrete cacheable request whose block parameter is too short to slice |
| HeadCache.ReorgAwareCache.TakeRolledBack | src/health/head_cache.rs:80-94 | collects exactly the keys recorded for the range, in order, and drops exactly those records |
| HeadCache.ReorgAwareCache.HandleReorg | src/health/head_cache.rs:69-99 | the state after is the reorg of the state before, by one batch sent behind everything already in the queue |
| HeadCache.ReorgAwareCache.RemoveStale | src/health/head_cache.rs:105-123 | the records left are those above the finalized number, whatever the map holds |
| HeadCache.ReorgAwareCache.ManageCache | src/health/head_cache.rs:40-61 | exactly the records outside the range of the head and, once the finalized number moved, above it are left, exactly the entries recorded in the range are gone, and the head and the finalized number are remembered |
| HeadCache.ObservingIsExact | src/health/head_cache.rs:40-61 | the same of the state as a whole |
| HeadCache.HeadPrunes | src/health/head_cache.rs:53-58 | a head leaves no record for a finalized block |
| HeadCache.ReorgAwareCache.StoreAnswer | src/balancer/processing.rs:84-134 | records, then stores, an acceptable answer; panics if and only if request and answer may be cached and the block parameter has fewer than two characters |
| HeadCache.ReorgBatchDeletesExactly | src/health/head_cache.rs:78-96 | applying the batch of deletions to the database removes exactly the keys recorded for the range |
| HeadCache.ReorgBatchDeletes | src/health/head_cache.rs:84-92 | a key is deleted by the batch if and only if it is recorded for a rolled back block |
| HeadCache.TaggedRequestsBypass | src/balancer/accept_http.rs:343-348 | a request that still holds a tag is neither answered from the cache nor stored in it |
| HeadCache.StoredWithNullId | src/balancer/processing.rs:104-123 | the stored answer has a null id and every other field as it came |
| HeadCache.HitRestoresId | src/balancer/accept_http.rs:181-188 | a cached answer carries the id of its request if and only if that is a `u64`, and otherwise 0, with the stored fields |
| HeadCache.OutgoingRestoresId | src/balancer/accept_http.rs:222-223 | a request goes to a node with its own id if and only if that is a `u64`, and otherwise with 0 |
| HeadCache.KeyHasNullId | src/balancer/accept_http.rs:336-347 | the key has a null id, and rewriting tags does not touch it |
| HeadCache.KeySpellsTagOut | src/balancer/accept_http.rs:341-347 | in the key of a request for `latest` or `finalized` the known number is spelled out in hexadecimal in place of the tag, and for the other tags, or unknown numbers, only the id is changed |
| HeadCache.KeyOfUntagged | src/balancer/accept_http.rs:341-347 | the key of a request without a tag in its block parameter differs only by the id |
| HeadCache.LatestSharesItsEntry | src/balancer/accept_http.rs:343-347 | a request for `latest` and the request that spells the number out have the same key |
| JsonText.TextDeterminesValue | src/balancer/accept_http.rs:346-347 | two requests have the same text, which is what is hashed, if and only if they are equal |
| JsonText.MembersDetermineObject | src/balancer/accept_http.rs:346-347 | two requests with the same members are one request, whatever order they were written in |
| JsonText.InsertKeepsSorted | src/balancer/accept_http.rs:345-346 | changing a member keeps the order that makes this so |
| Format.HasNamedNumber | src/balancer/format.rs:49-72 | the loop finds the first tag in list order; none if and only if the text has no tag |
| Format.TagsMeanTheirNumbers | src/balancer/format.rs:100-112 | each of the five tags, as the block parameter, means its own number; `latest` and `finalized` are replaced by theirs once it is known, and no other request is changed |
| Format.FirstNamesBlock | src/rpc/method.rs:131-135 | a number in the first parameter is the block, for five methods, whatever the other parameters are |
| Format.SecondNamesBlock | src/rpc/method.rs:126-129 | a number in the second parameter is the block, for four methods, whatever the other parameters are |
| Format.ThirdNamesBlock | src/rpc/method.rs:130 | a number in the third parameter of `eth_getStorageAt` is the block, whatever the storage slot is |
| Format.OthersNameNoBlock | src/balancer/format.rs:81-94 | no other method, and no request without a nonempty list of parameters, names a block or is rewritten |
| Format.PrefixIsSkipped | src/balancer/format.rs:114-118 | the digits behind the first two characters, whatever those are, in any case and with any zeros, are read if they fit a `u64`, and else no block is named |
| Format.RewriteRoundTrip | src/balancer/format.rs:124-167 | a request for a known `latest` or `finalized` becomes exactly the request that spells the number out, which holds no tag in its block parameter, names that number whatever tags mean later, and is not rewritten again |
| Format.HeadsNeverShareKeys | src/balancer/format.rs:150-161 | `latest` at two heads gives the same key if and only if the heads are equal |
| Format.TaglessRequestsAreFixed | src/balancer/format.rs:76-121 | a request without a tag in its text names the same block under any meaning of the tags and is not rewritten, although the number is read from text stripped of quotation marks |
| Format.CachedNumbersNeverMove | src/balancer/processing.rs:89-96 | whenever `can_cache` accepts, the block number is the same under any two meanings of the tags |
| Format.PanicsIffTooShort | src/balancer/format.rs:97-118 | looking for the block number panics if and only if the block parameter has fewer than two characters |
| Format.RewritingKeepsTooShort | src/balancer/format.rs:124-167 | rewriting tags makes no block parameter too short, nor repairs one that is |
| Format.IdNeverMattersToTags | src/balancer/accept_http.rs:341-348 | the gate on reading (null id) and the gate on writing (id restored) agree about tags |
| Format.MovingMethodsAreNeverCached | src/balancer/selection/cache_rules.rs:21-38 | no request for one of the four methods whose answers move is cacheable, wherever in the request the method comes |
| CacheRules.GatesAreExact | src/balancer/selection/cache_rules.rs:12-83 | nine words keep a request out of the cache, three keep an answer out, and nothing else does |
| Format.FailuresAreNeverCached | src/balancer/selection/cache_rules.rs:66-76 | no answer with a null result or an error member is cached |
| Text.HexRoundTrip | src/balancer/format.rs:114-118 | printing a `u64` in hexadecimal and parsing it gives it back |
| Text.LowerHexIsShortest | src/balancer/format.rs:153-158 | numbers are printed in lower case without leading zeros |
| Text.RadixIsExact | src/balancer/format.rs:114-118 | digits in any case, behind any zeros and perhaps a plus sign, are read if they fit a `u64`, and nothing else is |
| Text.UnquotingIsExact | src/balancer/format.rs:97 | exactly the quotation marks are removed |
| Text.UnquotingAddsNoWord | src/balancer/format.rs:97 | removing quotation marks from JSON text never creates a tag |
| Database.DatabaseTask.Send | src/database/accept.rs:72-100 | a request joins the end of the queue; what is pending decides nothing about what it will find |
| Database.DatabaseTask.ServeNext | src/database/accept.rs:25-38 | keeps: the store is the replay of what was served, every reply the lookup in the replay of the requests sent before it |
| Database.DatabaseTask.Get | src/database/accept.rs:52-69 | a read is answered with the contents at the time of sending, whatever was pending |
| Database.LastWriteWins | src/database/accept.rs:25-31 | what is found under a key is the value of the last request about it, or what the last operation about it in the last such batch says |
| Database.NeverWrittenIsAbsent | src/database/accept.rs:25-31 | nothing is found under a key no request was about |
| Database.EvictedKeyIsGone | src/health/head_cache.rs:96 | a key some batch deleted is absent until a later request writes it again |
| Database.EvictedReadMisses | src/database/accept.rs:25-38 | a read sent after the deleting batch, with no write in between, is answered with nothing |
| Forward.TryOnce | src/balancer/accept_http.rs:230-266 | one turn: the picked node is asked, and charged if it fails |
| Forward.FailureIsCharged | src/balancer/accept_http.rs:265-266 | a failed try adds the whole time to live, in nanoseconds, to the latencies of the node that was asked, and nothing to any other |
| Forward.SuccessChargesNobody | src/balancer/accept_http.rs:251-256 | a try that is answered leaves every latency alone |
| Forward.Fetch | src/balancer/accept_http.rs:211-277 | tries follow the outcomes one node at a time, at least once and never more than `max_retries` if that is positive; gives up exactly when all of them failed; the first success ends it and is reported under the node of the last try |
| Forward.ForwardValue | src/balancer/accept_http.rs:319-381 | served from the cache exactly on a hit, without touching nodes or cache; otherwise the first answer is offered to the cache under the key of the request and returned as it came |
| Forward.AnsweringIsAskThenStore | src/balancer/accept_http.rs:354-364 | answering a request at once is a pair of steps of the transparency theorem, and always an orderly one |
| Rpc.UpdateRpcLatency | src/balancer/processing.rs:141-151 | charges the first node with the id in place, or nobody |
| Rpc.PushLatency | src/rpc/types.rs:253-263 | the loop computes the slid window and its mean |
| Rpc.WindowIsExact | src/rpc/types.rs:253-263 | with a window of n and a fraction, after any run of updates the samples are exactly the last n |
| Rpc.LatencyIsMean | src/rpc/types.rs:261-262 | the latency is their sum over their number |
| Rpc.SumIsAdditive | src/rpc/types.rs:261-262 | the sum of two runs of samples is the sum of their sums, and a single sample is its own |
| Rpc.LatencyIsBetween | src/rpc/types.rs:261-262 | the latency lies between any bounds of the samples kept |
| Rpc.ChargingNeverResetsLimits | src/balancer/processing.rs:141-151 | a latency update leaves everything but the status of one node alone |
| Rpc.ChargeIsExact | src/balancer/processing.rs:147-150 | the sample is added to the first node with the id, and no other node changes |
| Select.ArgSort | src/balancer/selection/select.rs:17-25 | gives a permutation of the positions in which no later node is faster by a whole nanosecond in the range of `u64` |
| Select.KeysOrderByLatency | src/balancer/selection/select.rs:22 | nodes are compared by latency truncated to whole nanoseconds, saturating at both ends |
| Select.Scan | src/balancer/selection/select.rs:51-63 | the reverse overwriting scan finds the first eligible node in latency order, or keeps the fastest, and resets every counter |
| Select.Algo | src/balancer/selection/select.rs:38-69 | the list after is the pick of the list before: only counters and last uses change |
| Select.ChoiceIsFastest | src/balancer/selection/select.rs:50-59 | the choice has a streak left and its window elapsed if and only if any node has, and no such node, or no node at all if there is none, has a latency lower by a whole nanosecond in the range of `u64` |
| Select.PickLeavesOneCounter | src/balancer/selection/select.rs:62-67 | a pick leaves exactly one nonzero counter, and none above its limit (1 for the fallback); the chosen streak goes on, or starts over for the fallback, and only the last use of the choice moves |
| SelectRuns.RateBound | src/balancer/selection/select.rs:54-55 | on a clock that never goes back, the picks of a node in a window, the fallback aside, are at most one more than the distances that fit, whatever the latencies do |
| SelectRuns.MaxPerSecond | src/config/types.rs:459-471 | a node configured with m is picked at most m times in any closed second, the fallback aside |
| SelectRuns.StreakBound | src/balancer/selection/select.rs:54-66 | a streak is no longer than what is left of `max_consecutive` when it starts |
| SelectRuns.OnlyFirstPickFallsBack | src/balancer/selection/select.rs:61-67 | with positive limits and elapsed windows, no pick but the first can fall back |
| Health.RpcLists.MakePoverty | src/health/check.rs:230-281 | highest head, then demotions report by report, then the retain |
| Health.RpcLists.EscapePoverty | src/health/check.rs:286-357 | promotions report by report, then the retain; unhealthy if and only if no node is active, missing nodes if and only if neither list is empty |
| Health.RpcLists.SendDroppedToPoverty | src/health/check.rs:368-380 | moves the node, if it is active, as it is |
| HealthRounds.MakePovertyIsExact | src/health/check.rs:236-280 | evicts exactly the active nodes a report is against, flagged, for stale, missing and repeated reports; keeps the lists valid |
| HealthRounds.EscapePovertyIsExact | src/health/check.rs:302-335 | readmits exactly the poverty nodes a report speaks for and keeps exactly the flagged others |
| HealthRounds.CheckIsExact | src/health/check.rs:110-122 | a whole round loses, duplicates and changes no node but for its flag, decides who ends active, and restores its precondition |
| HealthRounds.RoundVerdict | src/health/check.rs:344-357 | what a round sends: unhealthy if and only if no node ends active, missing nodes if and only if some do and some do not, healthy if and only if there are nodes and all do, told from the reports alone |
| HealthRounds.ReachableIsValid | src/health/check.rs:369-380 | over any interleaving of the three operations no id is twice in a list or in both, and no active node is flagged |
| HealthRounds.EscapeConservesIff | src/health/check.rs:334-335 | no node is lost if and only if every poverty node is flagged or cleared |
| HealthRounds.DroppedNodeIsLost | src/health/check.rs:373-379 | a dropped node waits in the poverty list, whatever is culled or dropped meanwhile, until the next escape; that readmits it if and only if a report speaks for it, and otherwise it is in neither list ever after |
| HealthRounds.OneRoundRecovers | src/health/check.rs:110-122 | if all report the same head, one round from any valid lists, even with no active node, empties the poverty list and loses nobody |
| SledDb.SledStore.MaintainDb | src/database/types.rs:286-315 | does nothing below the capacity or before its time; else a failed flush keeps the handle, a failed opening leaves none, a reopening resets the estimate and sets the next time |
| SledDb.SledStore.WriteAll | src/database/types.rs:258-276 | a batch that gets through is applied and pinned by its size, one that does not changes nothing |
| SledDb.SledIsAMap | src/database/types.rs:294-308 | whatever fails and however often it is reopened, the contents are those of a plain map that took the writes that got through |
| SledDb.PinnedIsExact | src/database/types.rs:219-276 | over any run from an open database, the estimate is 256 times the bytes of the keys and values that got through since the last reopening, capped once |
| SledDb.MaintainReleases | src/database/types.rs:286-310 | once the time is reached and the disk works, a call of `maintain` leaves less than the capacity pinned, or nothing, and keeps the contents; below the capacity it does nothing |
| SledDb.AtMostATenth | src/database/types.rs:294-312 | between the first and the last reopening of any run, those before the last take at most a tenth of the time, failures or not |
| Subscriptions.SubscriptionData.AddUser | src/websocket/types.rs:91-97 | connects the user; the gauges keep showing the sizes of the maps |
| Subscriptions.SubscriptionData.RemoveUser | src/websocket/types.rs:99-113 | the user is in no subscription and not connected, all else unchanged |
| Subscriptions.SubscriptionData.RegisterSubscription | src/websocket/types.rs:116-158 | registers under the text of the parameters |
| Subscriptions.SubscriptionData.UnregisterSubscription | src/websocket/types.rs:160-172 | removes the entry under that very text |
| Subscriptions.SubscriptionData.SubscribeUser | src/websocket/types.rs:177-212 | succeeds exactly for a registered subscription with parameters, and changes nothing otherwise |
| Subscriptions.SubscriptionData.UnsubscribeUser | src/websocket/types.rs:215-228 | takes the user out of the subscription of that id on every node |
| Subscriptions.SubscriptionData.DispatchToSubscribers | src/websocket/types.rs:370-432 | every registered subscriber with an open channel gets exactly one copy and nobody else any; true exactly for an entry with nobody in it |
| SubscriptionRuns.DispatchIsExact | src/websocket/types.rs:390-429 | who is reached, who is removed, that every other membership is as before, and that a registration disappears if and only if the entry is empty and the text is the subscription id |
| SubscriptionRuns.ParamsDetermineRegistration | src/websocket/types.rs:123 | two subscriptions share a registration if and only if their parameters are equal |
| SubscriptionRuns.RegisteredIsFound | src/websocket/types.rs:177-212 | right after a registration, a user with the same parameters gets into it, and one with other, unregistered parameters into nothing |
| SubscriptionRuns.CleanupNeverHappens | src/websocket/types.rs:410-417 | over any run, a message of a subscription whose id starts with `0x` unregisters nothing |
| SubscriptionRuns.AbandonedStaysRegistered | src/websocket/types.rs:410-417 | a concrete run: the last subscriber leaves and the registration outlives the dispatch that finds nobody |
| SubscriptionRuns.MapsRefineAPairSet | src/websocket/types.rs:91-432 | over any run of the seven operations, dispatches included, the nested maps behave like a plain set of pairs |

## Left out

- HTTP, WebSocket and TLS plumbing, tokio tasks and timeouts, metrics other than `ws_users_total` and `ws_node_subs_total`, and tracing.
- `execute_ws_call`, which reads and fills the cache as `forward_value` does and restores any id.
- Real sled, rocksdb and blake3, the failing of database calls, and the rocksdb backend. `Database` and `SledDb` are not composed: the task owns a map, which `SledDb.SledIsAMap` shows the wrapper to be.
- JSON parsing, negative and fractional JSON numbers, and text outside ASCII, where the first two bytes of a block parameter are not its first two characters.
- Races between the push into the head cache and the sending of the write, and heads that are coalesced by the watch channel.
- The `no-cache` feature, the alternative selection features, and changes to the list of nodes between two tries of one request.
- The latency charged in `accept_request` after a successful answer, which is one more call of `Rpc.UpdateRpcLatency`.
- Rate and streak limits for the fallback, which ignores both, and for a list of one node, which bypasses the counters.
- A latency window of less than one sample, whose first update panics; `Rpc.UpdateLatency` requires a longer one.
- Nodes added to the poverty list by an admin, which arrive unflagged as dropped ones do.
- `SubscriptionData::move_subscriptions` and the lookups by id, node and parameters, which change nothing.
- `ws_user_subs_total`, which is decremented more than once per pair.
- Admin methods, JWT, configuration and command line parsing, and liveness endpoints.
