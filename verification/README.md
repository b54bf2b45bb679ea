# Scheduling and state core of the agent swarm, in Dafny

This project models the parts of the swarm that decide who runs what and what is remembered about
it, and proves what they promise over every input, every run and every interleaving.

- `CircuitBreaker.dfy`: the three-state breaker with its trimmed window, and its histories.
- `ResultCache.dfy`: the bounded TTL cache, against the ideal unbounded map of last puts.
- `Dispatcher.dfy`, `DispatchRuns.dfy`: resolve, filter, fail over, record, degrade; then whole runs of dispatches.
- `Registry.dfy`, `RegistryRuns.dfy`, `RegistryAnswers.dfy`: agent records, endpoint index and skill sets with three times to live; the skill index against a plain filter over live records; the health sweep; what each operation does to the answers.
- `Merge.dfy`, `SessionService.dfy`, `SessionRuns.dfy`, `SessionLogs.dfy`: the recursive merge and its algebra; sessions interleaved at every await; what their logs hold.
- `ContainerPool.dfy`, `PoolRuns.dfy`: the lease allocator with recycling; concurrent invocations that can be cancelled at any await.
- `Worker.dfy`, `Poller.dfy`: task records that only grow, their expiry, and the poll that forwards what changed.
- `Transcript.dfy`, `AgentLoop.dfy`, `Orchestrator.dfy`, `OrchestratorEnds.dfy`, `Review.dfy`: the two tool-calling loops, the message lists they send and leave behind, how a run ends, and the review that guards finalize.
- `SharedSession.dfy`, `SharedRefines.dfy`: orchestrator executes of one session that overlap on one message list; one that nobody interrupts does what the loop does.
- `Text.dfy`, `ExternalOrchestrator.dfy`: splitting at a marker, and the user turn recovered from a prefixed message.
- `Semaphores.dfy`: lazily made per-tenant semaphores and the permits of every semaphore.
- `Decimal.dfy`: str() and int() of integers, used in cache keys and container names; `Wrappers.dfy`, `Arithmetic.dfy`, `Selection.dfy`: an optional value, a law of products, lists picked from lists.

Time is an integer clock passed in. Docker, Redis, HTTP, the language model and its tools are
oracles: functions or sets given to an operation, about which nothing is assumed beyond what a
`requires` says. A method of a class stands for the Python method of the same name and is proved
equal to a function on values; the lemmas are about those functions and about sequences of states
in which each is a step from the one before. Where calls interleave, a state machine takes one step
at each await.

Things found that are not what the code's comments say or what a reader would expect, each with a
lemma:

- An internal agent that shares a skill with an external one is listed but no longer found by that skill once the external one is silent (`RegistryRuns.SharedSkillIsLost`); the exact condition is `RegistryRuns.AgreeForGoodExactlyWhen`.
- A heartbeat of an internal agent can leave behind a membership of a skill it later gives up; over all reachable states exactly the internal agents in the skill's set are concerned (`RegistryRuns.HeartbeatOfInternalLeavesMembership`, `RegistryRuns.HeartbeatLeavesMembershipExactlyWhen`).
- An internal agent does expire when, and only when, it is registered over a live record that has a time to live, in reachable states an external agent's (`RegistryRuns.InternalOverExternalExpires`, `RegistryRuns.InternalStaysExactlyWhen`, `RegistryRuns.InternalStaysUnlessExternalLives`).
- The same endpoint can be listed as two agents: an external agent that lives on heartbeats loses its index entry, and its next registration makes a second record (`RegistryRuns.HeartbeatingAgentIsListedTwice`); the exact condition over whole runs is `RegistryRuns.OneAgentPerEndpointExactlyWhen`.
- Merging deltas first and merging them one by one differ exactly when a value meets a dict (`Merging.AssociatesExactlyWhenCompatible`).
- A cancellation while the client of a container is being closed, or while its worker is getting ready, leaks the lease (`PoolRuns.CancelledWaitingLeaks`, `PoolRuns.AllGivenBackExactlyWhen`).
- A container given back can be leased again beyond its maximum exactly when it is worn out and Docker neither removes nor replaces it (`PoolRuns.KeptContainerIsLeasedTwice`, `PoolRuns.LeasedBeyondExactlyWhen`).
- An accepted finalize that is not the last call of its message, or a tool that raises, leaves a tool call without an answer in the session, for good, and every later run sends it. The one exception is a tool that raises while the session has no messages yet, after which it still has none (`Orchestrating.EarlyFinalizeSpoilsTheSession`, `Orchestrating.NextStartIsWellFormedExactlyWhen`, `Orchestrating.SessionIsWellFormedExactlyWhen`).
- Executes of one session may overlap, since each chat runs in the background on the same session object. One that adds a message while another waits for a tool makes the shared list ill formed for good (`SharedSession.OverlapSpoilsTheList`); a list that is sent is well formed exactly when no such step came before and no other execute owes an answer on it (`SharedSession.SentIsWellFormedExactlyWhen`).
- An invoke that raises escapes the dispatch instead of counting as a failure (`DispatchRuns.RaisingExample`, `DispatchRuns.RaisingEscapes`), so a target that always raises is never throttled (`DispatchRuns.RaisingTargetIsNeverThrottled`).
- A summary that quotes the refusal mark is taken for a refusal (`Review.MarkedExactlyWhen`).
- A user message that holds the marker line is stored truncated (`External.StoredTurnIsOriginalExactlyWhen`).

The cache key could confuse task ids that end in an integer, a colon and another task id
(`Cache.KeysCollideExactlyWhen`). The program does not meet this: its dispatcher gives the cache no
task id, and one task id is never confused with itself.

## Model

| member | source | states |
|---|---|---|
| Breaker.CircuitBreaker.Push | src/resilience/circuit_breaker.py:156-160 | the list is what it was with the outcome appended, cut to its last failure_threshold + success_threshold entries |
| Breaker.CircuitBreaker.CountRecentFailures | src/resilience/circuit_breaker.py:162-164 | the result is the number of failures in the list |
| Breaker.CircuitBreaker.TransitionTo | src/resilience/circuit_breaker.py:166-177 | opening notes the time, closing clears the list, every transition clears the count of probes |
| Breaker.CircuitBreaker.CurrentState | src/resilience/circuit_breaker.py:63-69 | asking turns an open breaker half open once the timeout has passed, and changes nothing else |
| Breaker.CircuitBreaker.Allow | src/resilience/circuit_breaker.py:71-73 | true exactly when the breaker is not open after the look |
| Breaker.CircuitBreaker.RecordSuccess | src/resilience/circuit_breaker.py:75-82 | the success step of the breaker's state machine |
| Breaker.CircuitBreaker.RecordFailure | src/resilience/circuit_breaker.py:84-98 | the failure step of the breaker's state machine |
| Breaker.CircuitBreaker.ForceReset | src/resilience/circuit_breaker.py:100-106 | closed with nothing recorded, whatever came before |
| Breaker.CircuitBreaker.Call | src/resilience/circuit_breaker.py:112-150 | refused exactly when open; otherwise one outcome is recorded, a failure when the function raised or was slow |
| Breaker.WindowIsSuffixOfLog | src/resilience/circuit_breaker.py:156-177 | after any run the kept list is the last window-many outcomes recorded since the breaker last became closed |
| Breaker.OpensOnFullWindow | src/resilience/circuit_breaker.py:84-98 | in a closed spell a call opens the breaker exactly when it is a failure with which that suffix of the full history holds failure_threshold failures |
| Breaker.ClosedSpellNeverFull | src/resilience/circuit_breaker.py:84-98 | it is the first such failure: at no moment of a closed spell does the suffix hold that many |
| Breaker.HalfOpenCountsSuccesses | src/resilience/circuit_breaker.py:75-89 | half open, all outcomes since entry are successes, number exactly the counter and are fewer than success_threshold |
| Breaker.ClosesOnlyByRecovery | src/resilience/circuit_breaker.py:63-82 | without reset a run comes back to closed only after the timeout and then success_threshold successes in a row |
| Breaker.ClosesExactlyByRecovery | src/resilience/circuit_breaker.py:63-89 | and whenever that has happened it does come back to closed |
| Breaker.OpenLeavesExactlyWhen | src/resilience/circuit_breaker.py:63-69 | an open breaker becomes half open exactly when it is asked no sooner than the timeout after it opened |
| Breaker.HalfOpenLeavesExactlyWhen | src/resilience/circuit_breaker.py:75-89 | a half-open breaker closes, with nothing recorded, exactly with the success that makes success_threshold since it was entered (or by a reset), and opens exactly with a failure |
| Breaker.FailuresCount | src/resilience/circuit_breaker.py:162-164 | the count is of exactly the failed outcomes |
| Breaker.OpeningsAreSpaced | src/resilience/circuit_breaker.py:63-69 | without reset any two openings are at least the timeout apart |
| Breaker.FailingTargetIsThrottled | src/resilience/circuit_breaker.py:63-98 | from any reachable state, sequential callers within T seconds of a target that only fails get at most failure_threshold + T / timeout calls through |
| Decimal.ParsePrint | src/container_pool/pool.py:352-353 | int() of a printed natural number gives it back |
| Decimal.PrintIntInjective | src/dispatcher/result_cache.py:29-32 | different integers print differently, so a hash can be read off its key |
| Cache.KeyInjective | src/dispatcher/result_cache.py:29-32 | keys agree only when agent type, hash and task id agree, even if agent types hold colons, whenever the task ids are the same or neither hides the other |
| Cache.KeysCollideExactlyWhen | src/dispatcher/result_cache.py:29-32 | two task ids can be confused, under some agent types and hashes, exactly when one ends in a printed integer, a colon and the other, at its start or after a colon |
| Cache.ResultCache.Fetch | src/dispatcher/result_cache.py:34-44 | the entry's result if it has not expired; an expired entry is removed |
| Cache.ResultCache.Save | src/dispatcher/result_cache.py:46-54 | failures are not stored; a full store first loses the first entry of nearest expiry; an empty store that may hold nothing raises |
| Cache.StoreIsSubMap | src/dispatcher/result_cache.py:34-54 | after any run the store is a sub-map, no larger than max_size, of the unbounded map of last puts |
| Cache.HitIsLastPut | src/dispatcher/result_cache.py:34-44 | a hit is the result of the latest put under that very key, made at most ttl before |
| Cache.NoneLater | src/dispatcher/result_cache.py:46-54 | nothing in the store expires later than what a put is about to store |
| Cache.OthersExpireApart | src/dispatcher/result_cache.py:46-54 | with increasing put times, any other entry came from another put and expires at another time |
| Cache.EvictionSpares | src/dispatcher/result_cache.py:50-53 | an eviction spares an entry unless max_size - 1 others outlive it |
| Cache.SurvivesNextPuts | src/dispatcher/result_cache.py:46-54 | with strictly increasing put times an unexpired entry survives the next max_size - 1 successful puts whatever their keys and the look-ups between |
| Dispatching.Dispatcher.GetBreaker | src/dispatcher/dispatcher.py:228-238 | one breaker for each kind and agent, built on first use and never replaced |
| Dispatching.Dispatcher.Resolve | src/dispatcher/dispatcher.py:64-76 | the candidates of all backends in order; a backend that raises contributes none |
| DispatchRuns.ResolvedAt | src/dispatcher/dispatcher.py:64-76 | candidate j of a backend stands after all candidates of the backends before it, and there are no others |
| DispatchRuns.ShareBreakerExactlyWhen | src/dispatcher/dispatcher.py:228-238 | two targets share a breaker exactly when of one kind with one agent id, or one agent type where there is no id |
| Dispatching.Dispatcher.Filter | src/dispatcher/dispatcher.py:78-93 | the loop over the pairs computes the filter and asks each breaker once |
| DispatchRuns.FilterKeepsWhatPasses | src/dispatcher/dispatcher.py:78-93 | the filter keeps, in order, exactly the candidates whose breaker is not open when asked and whose health check succeeds |
| DispatchRuns.KeptAre | src/dispatcher/dispatcher.py:105-108 | without the precheck all candidates are kept and no breaker is asked |
| Dispatching.Dispatcher.Try | src/dispatcher/dispatcher.py:173-224 | an open circuit is not invoked; otherwise a reply or timeout records one outcome on the target's breaker, and an exception records none and escapes |
| DispatchRuns.TryGives | src/dispatcher/dispatcher.py:173-224 | an attempt is refused exactly while the breaker is open and its 30 seconds have not passed; otherwise it is the backend's reply, a timeout, or the exception |
| Dispatching.Dispatcher.Lookup | src/dispatcher/dispatcher.py:156-169 | a cache look-up under agent type and hashed task, or nothing without a cache |
| Dispatching.Dispatcher.FailOver | src/dispatcher/dispatcher.py:119-133 | candidates are tried one by one until one succeeds or an exception escapes |
| Dispatching.Dispatcher.DoDispatch | src/dispatcher/dispatcher.py:105-154 | the whole dispatch: its answer, the calls made on every breaker and the cache left behind |
| DispatchRuns.FreshExactlyWhenOneSucceeds | src/dispatcher/dispatcher.py:119-133 | a fresh success exactly when one of the candidates that may be tried succeeds and the cache does not raise on storing; the first such answers, all before it were tried in order and failed |
| DispatchRuns.TriesTheFirst | src/dispatcher/dispatcher.py:119-133 | the kept candidates are tried in order, the first min(n, max_retries + 1) and no more: a fresh success exactly when one of those succeeds at its turn, an attempt on each when none succeeds or raises |
| DispatchRuns.RaisingEscapes | src/dispatcher/dispatcher.py:207-217 | a backend that raises at its turn ends the dispatch with that exception, although a handler is meant to turn it into a failed attempt, and the cache is as before |
| DispatchRuns.EscapesExactlyWhen | src/dispatcher/dispatcher.py:105-154 | an exception leaves the dispatch exactly when a backend raises at its turn, a success cannot be stored, or no kept candidate may be tried and the cache has no answer |
| DispatchRuns.RaisingExample | src/dispatcher/dispatcher.py:207-217 | concrete dispatch: one healthy candidate whose backend raises |
| DispatchRuns.OtherwiseCacheDecides | src/dispatcher/dispatcher.py:110-154 | if none of them succeeds or raises, all were tried and failed, and the answer is degraded with the cached output or failed, as the cache decides |
| DispatchRuns.EachBreakerChargedItsOwn | src/dispatcher/dispatcher.py:173-224 | however the dispatch ends, every breaker gets exactly the outcomes of the attempts on its own target that it did not refuse, in order, and no other |
| DispatchRuns.RaisingIsNotCharged | src/dispatcher/dispatcher.py:207-217 | when a backend raises, the attempts before it are charged as always and the raising turn adds no outcome to any breaker |
| DispatchRuns.RaisingTargetIsNeverThrottled | src/dispatcher/dispatcher.py:207-217 | a target that only raises keeps its closed breaker as it is through any number of dispatches and is admitted at any time |
| DispatchRuns.DispatchGenuine | src/dispatcher/dispatcher.py:105-154 | every breaker of a dispatcher is at all times in the state its own recorded calls lead to |
| DispatchRuns.FailingTargetIsRarelyInvoked | src/dispatcher/dispatcher.py:173-224 | over a run of dispatches lasting T seconds, a target that always fails or times out is invoked at most failure_threshold + T / timeout times |
| DispatchRuns.OnlyFreshIsKept | src/dispatcher/dispatcher.py:131-146 | only a fresh success changes what the cache holds, by one put; degraded answers never enter it or extend an entry's life |
| DispatchRuns.SameKeySameWork | src/dispatcher/result_cache.py:29-32 | requests with the same cache key have the same agent type and the same hash of the task |
| DispatchRuns.DegradedIsLatestFresh | src/dispatcher/dispatcher.py:110-146 | a degraded answer carries the output of the most recent fresh success an earlier dispatch returned for that agent type and hash, at most ttl before the look-up |
| Registering.AgentRegistry.Register | src/registry/registry.py:89-177 | an endpoint still in the index keeps its id, another gets the new one; old memberships of a live record go, new ones come, and each key gets its time to live |
| Registering.AgentRegistry.Heartbeat | src/registry/registry.py:194-217 | renews the record and its skill sets but not the endpoint index; false when there is no record |
| Registering.AgentRegistry.Deregister | src/registry/registry.py:225-241 | removes the record and its memberships, and leaves the endpoint index |
| Registering.AgentRegistry.ListAgents | src/registry/registry.py:284-314 | the records still held, and only the online ones unless all are asked for |
| Registering.AgentRegistry.FindBySkill | src/registry/registry.py:320-342 | the members of the skill's set that have a record, and only the online ones unless all are asked for |
| Registering.AgentRegistry.HealthSweep | src/registry/registry.py:398-447 | stale records go, then every membership without a record; the count returned is of exactly those |
| Registering.AgentRegistry.PruneOrphans | src/registry/registry.py:425-439 | the second half of the sweep, set by set |
| Registering.CountOrphans | src/registry/registry.py:430-439 | one more skill adds to the count as many as its set has members without record |
| RegistryRuns.RegisterKeeps | src/registry/registry.py:110-177 | registering keeps the invariant that ties records, index and skill sets and their times to live |
| RegistryRuns.HeartbeatKeeps | src/registry/registry.py:194-217 | so does a heartbeat of an external agent |
| RegistryRuns.DeregisterKeeps | src/registry/registry.py:225-241 | so does deregistering |
| RegistryRuns.SweepKeeps | src/registry/registry.py:398-447 | so does a sweep, which in such states finds no stale record |
| RegistryRuns.PurgeKeeps | src/registry/registry.py:147-177 | so does the passing of time: an external agent's skill sets outlive its record, and its endpoint entry does not |
| RegistryRuns.RunKeeps | src/registry/registry.py:89-251 | the invariant holds after every run from an empty registry |
| RegistryAnswers.DeregisterAnswers | src/registry/registry.py:225-241 | on any contents, at any later time, deregistering takes the agent out of list_agents and of find_by_skill for every skill and changes nothing else in them |
| RegistryAnswers.DeregisteredStaysOut | src/registry/registry.py:225-241 | over whole runs the agent stays out of both answers until it is registered again |
| RegistryAnswers.RegisterAnswers | src/registry/registry.py:110-177 | in reachable states a registered external agent is listed with what it registered for exactly one ttl, found by exactly its skills all that time, and the others are listed as before |
| RegistryAnswers.FoundAtOnce | src/registry/registry.py:171-175 | internal or external, an agent just registered is found by exactly its skills |
| RegistryAnswers.HeartbeatAnswers | src/registry/registry.py:194-217 | in reachable states a heartbeat keeps an external agent listed and found for exactly another ttl, and leaves every other external agent as it was |
| RegistryAnswers.SweepTakesExactly | src/registry/registry.py:267-276 | on any contents a sweep takes exactly the external agents whose last sign of life is two ttl old |
| RegistryRuns.OnlineOnlyIsIdle | src/registry/registry.py:267-276 | in reachable states every record held is online, so online_only changes no answer |
| RegistryRuns.FoundIfMember | src/registry/registry.py:284-342 | at every reachable state external agents are found by exactly the skills their record declares, and nobody is found by a skill his record does not declare |
| RegistryRuns.FindIsFilter | src/registry/registry.py:284-342 | at every clock value after any run find_by_skill is list_agents filtered by the skill, for every skill that external and internal agents do not share |
| RegistryRuns.AgreeForGoodExactlyWhen | src/registry/registry.py:172-175 | from a reachable state the two answers agree for good exactly when no internal agent's membership is in a set with a time to live |
| RegistryRuns.SharedSkillIsLost | src/registry/registry.py:172-175 | concrete run: an internal agent is listed with its shared skill and not found by it |
| RegistryRuns.HeartbeatLeavesMembershipExactlyWhen | src/registry/registry.py:209-215 | in every reachable state: after a heartbeat some later registration of the agent's endpoint has it found by a skill its record does not declare exactly when the agent is internal and was in the skill's set |
| RegistryRuns.HeartbeatOfInternalLeavesMembership | src/registry/registry.py:209-215 | concrete run: after a heartbeat an internal agent is found by a skill it gave up |
| RegistryRuns.InternalStaysExactlyWhen | src/registry/registry.py:147-153 | on any contents: an internal agent just registered stays listed for good exactly when no live record with a time to live stood under its endpoint's id |
| RegistryRuns.InternalStaysUnlessExternalLives | src/registry/registry.py:147-153 | in reachable states that record is an external agent's |
| RegistryRuns.InternalOverExternalExpires | src/registry/registry.py:147-158 | concrete run: an internal agent registered over an external one disappears |
| RegistryRuns.RegisterDuplicatesExactlyWhenNot | src/registry/registry.py:92-94 | registering keeps one record for each endpoint exactly when every live record of the endpoint is the one the index names |
| RegistryRuns.OneAgentPerEndpointExactlyWhen | src/registry/registry.py:92-158 | over a whole run no endpoint ever has two records exactly when every registration found its endpoint's records indexed |
| RegistryRuns.HeartbeatingAgentIsListedTwice | src/registry/registry.py:114-122 | concrete run: register, heartbeat, register again after the index entry expired, and one endpoint is listed twice |
| RegistryRuns.SweepChangesNoAnswer | src/registry/registry.py:398-447 | on any contents a sweep changes no answer of list_agents or of find_by_skill for any skill, as asked for with online_only |
| RegistryRuns.SweepKeepsHeldExactlyWhen | src/registry/registry.py:398-447 | without online_only it changes neither exactly when no stale record is held, or is in the skill's set |
| RegistryRuns.SweepCountsWhatGoes | src/registry/registry.py:398-447 | on any contents a sweep leaves no member without a record, and returns by how much records and memberships became fewer |
| RegistryRuns.SecondSweepRemovesNothing | src/registry/registry.py:398-447 | an immediate second sweep returns 0 and changes nothing |
| Merging.DeepMerge | src/session/service.py:228-234 | the loop over the delta's items computes the recursive merge, in whatever order the items come |
| Merging.MergedPlain | src/session/service.py:228-234 | path by path: a plain value is at a path of the result exactly when the delta has it there, or the target has it and the delta leaves the path alone |
| Merging.MergedDict | src/session/service.py:228-234 | the same for dicts |
| Merging.SameAtEveryPath | src/session/service.py:228-234 | those two facts determine the merge: values that agree on them at every path are equal |
| Merging.MergeIdempotent | src/session/service.py:228-234 | merging the same delta again changes nothing |
| Merging.MergeAssociates | src/session/service.py:228-234 | merge(merge(t, a), b) == merge(t, merge(a, b)) when a has no other value where b has a dict |
| Merging.GroupingMatters | src/session/service.py:228-234 | where a does have one, some target tells the two apart |
| Merging.AssociatesExactlyWhenCompatible | src/session/service.py:228-234 | so the law holds for all targets exactly under that condition |
| Merging.GroupingExample | src/session/service.py:228-234 | a concrete target and two deltas for which it fails |
| Sessions.SessionService.GetLock | src/session/service.py:37-54 | the session's one lock, made on first use; other locks stay |
| Sessions.SessionService.AppendEvent | src/session/service.py:166-180 | uninterrupted: the row gains the event with all its fields, and a timestamp unless it had one (`SessionLogs.EventsAreStored`); None without a row |
| Sessions.SessionService.UpdateState | src/session/service.py:182-195 | uninterrupted: the row's state is merged with the delta; None without a row |
| SessionRuns.RunKeeps | src/session/service.py:37-54 | over every interleaving: one lock for each session, one holder for each lock, and a row is stored by the caller that read it last |
| SessionRuns.SessionsAreSerializable | src/session/service.py:166-214 | in every interleaving the stored events are the initial log followed by the completed calls' events in lock order, and the stored state is the fold of the merge over their deltas in that order |
| SessionLogs.EventsAreStored | src/session/service.py:177-178 | what is stored of an appended event has exactly its fields, with their values, and a timestamp, the call's clock where it brought none |
| SessionLogs.LogHoldsTheEvents | src/session/service.py:166-214 | in every interleaving the stored log is the initial one and then such an entry for each completed append in lock order; the rest of the row but the state never changes |
| SessionLogs.AnswersNoneExactlyWhenAbsent | src/session/service.py:172-176 | a call answers None exactly when its session does not exist, and no call makes or drops a row |
| SessionRuns.NoneLostOrRepeated | src/session/service.py:166-214 | every call that stored its row stands in that order exactly once, and no other call does |
| ContainerPool.IndexRoundTrip | src/container_pool/pool.py:352-353 | the index parsed from a container's name is the one printed into it |
| ContainerPool.ConfigFilesDiffer | src/container_pool/pool.py:156-158 | different indices have different config files |
| ContainerPool.CheckoutTakesFirst | src/container_pool/pool.py:217-247 | checkout takes the first container that is idle and runs, marks idle ones before it dead, changes nothing else, and is empty-handed exactly when there is none |
| ContainerPool.ContainerPoolManager.Startup | src/container_pool/pool.py:120-135 | the pool gains one container for each round that Docker could start |
| ContainerPool.ContainerPoolManager.Checkout | src/container_pool/pool.py:217-247 | the loop over the pool does what the specification of checkout says, and the object returned is the pool's own |
| ContainerPool.ContainerPoolManager.ReturnContainer | src/container_pool/pool.py:309-336 | the container is idle and unassigned, and recycled when worn out; an unknown id changes nothing |
| ContainerPool.ContainerPoolManager.Recycle | src/container_pool/pool.py:343-357 | a new container with the same index takes its place; if none starts the old entry stays |
| ContainerPool.ContainerPoolManager.GetStatus | src/container_pool/pool.py:374-383 | the numbers of containers, of idle and of busy ones |
| ContainerPool.CountIs | src/container_pool/pool.py:374-383 | the count is of exactly the containers in that state |
| ContainerPool.DockerBackend.Invoke | src/dispatcher/backends.py:47-120 | the container is given back however the exchange ends, cancellation included, and the attempt succeeds exactly when the last snapshot is completed |
| PoolRuns.CheckoutKeeps | src/container_pool/pool.py:217-247 | a checkout between any other steps keeps who holds what, the names and the use counts right |
| PoolRuns.GiveBackKeeps | src/container_pool/pool.py:309-357 | so does giving back, with or without recycling, whether or not Docker obeys |
| PoolRuns.ReplacedExactlyWhen | src/container_pool/pool.py:309-357 | a container given back is replaced, under its name, exactly when it has had max_uses leases and Docker starts a new one; otherwise it is idle with its uses as they were, and every other container is as it was |
| PoolRuns.EachLeaseHasOneHolder | src/dispatcher/backends.py:47-107 | in every interleaving each busy container is held by exactly one invocation, and each invocation past checkout holds exactly one container, busy with its task |
| PoolRuns.AllGivenBackExactlyWhen | src/dispatcher/backends.py:85-107 | once all invocations are over, some container is still leased exactly when one was cancelled while its worker got ready or its client was closed; success, a failed send and cancellation during the exchange give it back |
| PoolRuns.CancelledWaitingLeaks | src/container_pool/pool.py:242-307 | concrete run: one invocation cancelled while its worker gets ready is over and its container stays leased |
| PoolRuns.LeasesAreLimited | src/container_pool/pool.py:332-357 | no lease exceeds max_uses (or the first use) unless that very container was once given back worn out and neither removed nor replaced |
| PoolRuns.LeasedBeyondExactlyWhen | src/container_pool/pool.py:332-357 | in every reachable state, giving a container back lets the next checkout lease it beyond the maximum exactly when it was worn out and neither removed nor replaced |
| PoolRuns.KeptContainerIsLeasedTwice | src/container_pool/pool.py:343-357 | concrete run: with one use allowed, a container given back and kept is leased a second time |
| PoolRuns.WorkersStayDistinct | src/container_pool/pool.py:154-193 | through every run the pool keeps size and names; containers have distinct indices, port base_port + index, and distinct config files |
| PoolRuns.StartupIsInit | src/container_pool/pool.py:120-135 | startup leaves a pool with which those runs may begin |
| PoolRuns.StartedAt | src/container_pool/pool.py:120-135 | the containers are those of exactly the rounds in which Docker started one, in order |
| Worker.Task.OnProgress | src/agents/worker.py:409-410 | the record gains one progress event |
| Worker.Task.Finish | src/agents/worker.py:412-430 | the run's end sets state, completion time and the agent's message |
| Worker.WorkerServer.CleanupOldTasks | src/agents/worker.py:288-307 | at most once a minute, exactly the terminal records older than five minutes go |
| Worker.WorkerServer.Accept | src/agents/worker.py:378-407 | after a cleanup there is a new working record under the new id |
| Worker.WorkerServer.GetTask | src/agents/worker.py:447-464 | the record under the id, if held |
| Worker.RunShape | src/agents/worker.py:409-430 | what a record looks like after any part of its run: terminal exactly when the end has happened, one progress event for each report |
| Worker.RecordsGrow | src/agents/worker.py:409-430 | a later record extends an earlier one, and none follows a terminal one |
| Worker.HeldUntilExpired | src/agents/worker.py:288-307 | among any other requests and cleanups, a record with all that happened to it is held until more than five minutes after its run ended |
| Worker.CleanedExactlyWhen | src/agents/worker.py:288-307 | a cleanup takes exactly the records whose run ended more than 300 seconds ago, and none within 60 seconds of the last cleanup |
| Worker.ExpiredGoes | src/agents/worker.py:288-307 | whatever else happens, a request that comes when a cleanup is due finds such a record gone |
| Poller.ExtractText | src/common/a2a_client.py:225-237 | the text of the last item the agent wrote |
| Poller.AgentTextIs | src/common/a2a_client.py:227-237 | the text is that of the agent's last item, and empty when it wrote none |
| Poller.TextsAre | src/common/a2a_client.py:231-236 | the texts are those of exactly the text parts, in order |
| Poller.JoinedAre | src/common/a2a_client.py:236 | joined by single spaces |
| Poller.PollTask | src/common/a2a_client.py:163-188 | yields the replies whose key differs from the one before and stops at the first terminal one or at the deadline; with a positive interval there are at most ceil(timeout / interval) polls |
| Poller.ChangesAreTheNew | src/common/a2a_client.py:180-185 | exactly the replies that differ from the one before in state, message or number of progress events are yielded, in order |
| Poller.ViewShows | src/common/a2a_client.py:149-158 | at any point of a run its snapshot shows the id, the state and the progress reported so far |
| Poller.GoneLooksUnknown | src/common/a2a_client.py:149-158 | a task that is not held reads as of unknown state, which is not terminal |
| Poller.PositiveIntervalEnds | src/common/a2a_client.py:174-188 | with a positive interval the loop ends whatever is replied |
| Poller.PollBound | src/common/a2a_client.py:174-188 | the bound on polls as a quotient |
| Poller.KeyDetermines | src/common/a2a_client.py:180-185 | state, message and progress length of a snapshot determine how far its run was |
| Poller.PollForwardsTheRun | src/common/a2a_client.py:163-188 | watching one run, exactly the observed snapshots with adjacent repeats removed are yielded: none twice, progress only growing, nothing after a terminal one |
| Poller.FinalTextIsResult | src/agents/worker.py:414-430 | the final snapshot reads as the run's result or error |
| Poller.PollNeverFindsItGone | src/agents/worker.py:283-307 | a poll of at most five minutes that begins no later than the run's end never gets the error reply |
| Poller.PollForwardsWhatTheWorkerHolds | src/common/a2a_client.py:163-188 | among any other requests and cleanups at the worker, a poll none of whose replies comes more than five minutes after the run's end yields exactly the observed records of the run with adjacent repeats removed |
| Poller.BeforeDeadlineIsInTime | src/common/a2a_client.py:174-179 | replies before the deadline of a poll of at most five minutes that begins no later than the run's end are such |
| Transcript.AppendBlock | src/agents/agent_loop.py:45-73 | an assistant message with answers is well formed exactly when every call has its answer |
| AgentLoop.RunAgentLoop | src/agents/agent_loop.py:38-83 | at most max_iterations model calls, each given the transcript so far; the result is the first reply without tool calls; progress events mirror the transcript |
| AgentLoop.TranscriptIsWellFormed | src/agents/agent_loop.py:44-73 | every list sent and the final one are well formed, bad arguments included |
| AgentLoop.AnswersAreComplete | src/agents/agent_loop.py:60-73 | each call is answered with what its tool says to its parsed arguments, or to none where they do not parse |
| AgentLoop.IterationEnds | src/agents/agent_loop.py:44-83 | the loop ends exactly with a reply without tool calls, and its result is that reply's text; it raises exactly when the model's call or a tool does |
| Orchestrating.Session.Execute | src/orchestrator/orchestrator.py:407-510 | at most 25 model calls, what each is sent, the result, and what is left in the session, also when an exception escapes |
| Orchestrating.Session.HandleCalls | src/orchestrator/orchestrator.py:453-493 | each call is answered in turn, bad JSON with an error, until an accepted finalize or an exception |
| Orchestrating.EverySentIsWellFormed | src/orchestrator/orchestrator.py:407-497 | every list sent is well formed if the starting list is, bad arguments and the forced finalize included |
| Orchestrating.TurnIsWellFormedExactlyWhen | src/orchestrator/orchestrator.py:443-497 | a turn leaves a well-formed list exactly when every tool returned and an accepted finalize was the last call |
| Orchestrating.RunIsWellFormedExactlyWhen | src/orchestrator/orchestrator.py:407-497 | the transcript of a whole run is well formed exactly when each of its turns was such |
| Orchestrating.NextStartIsWellFormedExactlyWhen | src/orchestrator/orchestrator.py:377-385 | after an execute on a well-formed session the next list starts well formed exactly when every turn was such or an exception escaped a session without messages |
| Orchestrating.SessionIsWellFormedExactlyWhen | src/orchestrator/orchestrator.py:377-502 | over any sequence of executes one after the other in a new session, the next list starts well formed exactly when all before were clean in that sense, and then so is every list the next execute sends |
| Orchestrating.EarlyFinalizeSpoilsTheSession | src/orchestrator/orchestrator.py:483-502 | concrete execute: finalize is accepted before another call, and the next list starts ill formed |
| OrchestratorEnds.CallsEnd | src/orchestrator/orchestrator.py:453-497 | the loop over a message's calls stops exactly at the first finalize whose answer lacks the review's mark, or the first tool that raises |
| OrchestratorEnds.CallsAnswered | src/orchestrator/orchestrator.py:454-480 | before that each call has its answer in its place: the tool's words, or that its arguments are no JSON |
| OrchestratorEnds.RunEndsExactlyWhen | src/orchestrator/orchestrator.py:407-497 | a run ends by a failed model call, a reply without calls, an accepted finalize or an exception exactly when one of its iterations does |
| OrchestratorEnds.AcceptedResult | src/orchestrator/orchestrator.py:483-497 | the result is then that finalize's summary, or its answer where it has none |
| OrchestratorEnds.RefusedGoesOn | src/orchestrator/orchestrator.py:484-485 | a finalize whose answer holds the mark leaves the run going |
| OrchestratorEnds.UnproducedNeverEnds | src/orchestrator/orchestrator.py:765-780 | a finalize answered by the review never ends the run while a dispatched type has no file that is not empty |
| OrchestratorEnds.NudgedExactlyWhen | src/orchestrator/orchestrator.py:411-416 | the forced finalize is added exactly in iteration 21, and exactly when a tool call before dispatched an agent |
| SharedSession.SoundStep | src/orchestrator/orchestrator.py:377-497 | a step of any execute that adds to no list on which another owes an answer keeps each list well formed, or ending in the one block being answered |
| SharedSession.IntrusionSpoils | src/orchestrator/orchestrator.py:377-497 | a step that does add to such a list makes it ill formed whatever follows |
| SharedSession.SentIsWellFormedExactlyWhen | src/api/routes.py:125-197 | in every interleaving of executes of one session, a list sent to the model is well formed exactly when no step before added to it while another execute owed an answer on it and none owes one now |
| SharedSession.OverlapSpoilsTheList | src/api/routes.py:160-197 | concrete run: a second chat begins while the first waits for its tool, and the first then sends an ill-formed list |
| SharedRefines.UninterruptedIsExecute | src/orchestrator/orchestrator.py:407-502 | step by step on the shared lists, an execute that nobody interrupts has the loop's transcript and end, and leaves its list to the session unless an exception escaped |
| SharedRefines.LeavesWhatExecuteLeaves | src/orchestrator/orchestrator.py:499-502 | run to its end, such an execute leaves in the session what the loop leaves, also when an exception escapes |
| Transcript.IllFormedStays | src/orchestrator/orchestrator.py:377-379 | a list that is ill formed when something other than an answer is added stays so, whatever follows |
| Review.ReviewArtifacts | src/orchestrator/orchestrator.py:76-100 | passes exactly when each dispatched type has a file that is not empty, and lists those with none and those with only empty ones |
| Review.MissingAre | src/orchestrator/orchestrator.py:84-94 | the types listed as missing are the dispatched ones without a file below the directory of their first part |
| Review.ToolFinalize | src/orchestrator/orchestrator.py:765-813 | the refusal when some dispatched type has produced nothing, and otherwise the heading, the summary and what is said of the files |
| Review.MarkedExactlyWhen | src/orchestrator/orchestrator.py:774-813 | the answer holds the mark exactly when it is a refusal or summary or file names quote the mark |
| Review.HeadHasNoMark | src/orchestrator/orchestrator.py:484-492 | the fixed heading neither holds the mark nor completes one |
| Text.LastPieceAfter | src/orchestrator/external.py:168 | splitting at a text that cannot overlap itself gives what follows its last occurrence |
| External.Session.Execute | src/orchestrator/external.py:61-73 | what is sent with the history in front, and what is appended to the session on success and on failure |
| External.TurnsAre | src/orchestrator/external.py:63-70 | the turns are exactly the user and assistant messages that say something, in order |
| External.HistoryIsTheLastTen | src/orchestrator/external.py:65-70 | the last ten of them |
| External.LineShows | src/orchestrator/external.py:177-192 | a line shows who spoke, and what, cut after 500 characters |
| External.SentIs | src/orchestrator/external.py:71-73 | the lines, the rule, the marker and the message, or the message alone when there are no turns |
| External.MarkerIsBorderless | src/orchestrator/external.py:73 | no end of the marker is a start of it |
| External.StoredTurnIsOriginalExactlyWhen | src/orchestrator/external.py:164-169 | for any history, the stored user turn is the message sent exactly when the message does not hold the marker line |
| Semaphores.TenantLimits.GetTenantSemaphore | src/api/routes.py:71-83 | the tenant's semaphore, made on first use with the limit, and never replaced |
| Semaphores.OneSemaphorePerTenant | src/api/routes.py:71-83 | in every interleaving, racing first uses included, callers have the same semaphore exactly when they are of the same tenant |
| Semaphores.PermitsAreConserved | src/api/routes.py:160-195 | permits left and holders add up to the limit through success, failure, timeout and cancellation, so no more of a tenant's callers run than that |
| Semaphores.CapHolds | src/dispatcher/dispatcher.py:183-217 | at every moment at most the configured limit of a tenant's callers run, and at most max_concurrent invocations under a semaphore made beforehand |
| Semaphores.LimitsStay | src/api/routes.py:71-83 | every semaphore keeps the limit it was made with |
| Semaphores.AllPermitsComeBack | src/dispatcher/dispatcher.py:183-217 | when all callers are over, every semaphore has all its permits |
| Semaphores.PermitsAreUsed | src/api/routes.py:160-163 | a free permit is not withheld: a caller that finds no one waiting runs at once, and one that waits can be handed it |

## Left out

- Clock readings: the operations of one critical section read the clock once; Python may read it two or three times there. Readings of different steps may differ.
- Fractions of a second: the clock, the timeouts and the intervals are integers.
- Breaker settings below one: thresholds and window are at least 1, as the defaults are; the dispatcher only builds breakers with the defaults.
- Concurrent dispatches: `Dispatching` and `DispatchRuns` are about dispatches one after the other. A half-open breaker does not limit how many probes run at once, and the breaker is asked before the semaphore, so the throttle bound is for sequential dispatches.
- DispatchRuns.FailingTargetIsRarelyInvoked: counts the invocations that answered or timed out; one that raises escapes the dispatch and records nothing, since the handler awaits the finished task again, and is not throttled at all.
- DispatchRuns.DegradedIsLatestFresh: up to equal hash of the task text, since the key holds only the hash.
- Dispatch metrics, the backend objects beside each candidate, artifacts of attempts: carried through or dropped, nothing to prove.
- Cache.SurvivesNextPuts: for strictly increasing put times, as min() breaks ties by insertion order.
- Registry operations are atomic: the reads before a pipeline and the pipeline itself are one step. Order of listed agents, Pub/Sub events, and record fields that nothing reads (version, protocol, capabilities, instance id) are not modelled.
- RegistryRuns.FindIsFilter: endpoints are always internal or always external and only external agents send heartbeats; the lemmas named above show why. heartbeat_ttl is positive.
- Registering.AgentRegistry.ListAgents: the order of the list, and the status field put into each record, are left out; the answer is a map from id to record.
- Registering.AgentRegistry.FindBySkill: likewise.
- Merging.DeepMerge: works on values. That Python merges into the target object, and that the merged dict may share sub-objects with the delta, is not captured; a session's row is parsed afresh for every call.
- Session creation: get_or_create_with_id saves without the lock, so serializability is for rows that exist; cancellation inside the threaded save and the never-called lock cleanup are left out.
- Encoding: state and events are stored as JSON text; encode and decode are taken to be inverse. Plain JSON values are opaque text.
- PoolRuns.EachLeaseHasOneHolder: cancellation inside checkout before the readiness wait cannot happen, as there is no await between marking busy and that wait; a config file that cannot be written there is not modelled.
- The Docker client is taken to exist at checkout, as it does after startup; without one, checkout skips the running check. The pool's unused semaphore and overflow, readiness polling, network and image set-up, config contents and shutdown are left out.
- Startup's removal of stale containers of the same name is part of the oracle that says whether a round starts a container.
- Poller.PollTask: for loops that end; with an interval of zero or less that needs the clock to reach the deadline or a terminal reply, and there is no bound on polls.
- Poller.PollNeverFindsItGone: worker and client read one clock; in Python one reads time.time() and the other time.monotonic().
- A cancelled worker run writes no terminal state, so its record stays "working" until the process ends; only uncancelled runs are claimed about.
- Artifacts in A2A snapshots, HTTP status handling beyond success and failure, JSON-RPC envelopes and unknown methods.
- Transcript messages keep role, text, calls and ids; other fields of model_dump() are dropped. Null content is the empty text.
- The tool list offered to the model, which is none in the orchestrator's last three iterations: a reply may hold tool calls in any iteration here.
- Orchestrating.Session.Execute: other executes of the session do not overlap with it, and event callbacks that raise count among the tools' exceptions, not before the model call; both are in `SharedSession`, where any execute can also be aborted at any step; the shared context, the plan and the structured session events are not modelled.
- Orchestrating.EverySentIsWellFormed: for an execute with which no other of its session overlaps.
- Orchestrating.NextStartIsWellFormedExactlyWhen: likewise; `SharedSession.SentIsWellFormedExactlyWhen` says what holds when they overlap.
- Orchestrating.SessionIsWellFormedExactlyWhen: likewise.
- SharedSession.SentIsWellFormedExactlyWhen: the list is sent as it is at the step of sending; the thread of the model call reads it at about that time.
- Runs without a session start as in an empty one and save nothing.
- External.Session.Execute: message contents are texts or lists of typed parts, not other objects; the service events around the call are left out.
- Fairness of asyncio semaphores: which waiter is handed a permit is left open; a new caller never passes one that waits.
- Semaphores: the shared resolver that each orchestration repoints at its own copy of the orchestrator is not modelled.
- TaskManager, SQLiteStore, SessionManager, adapters, SDK client, gateway routes, configuration loading, agent cards and prompts, worker file tools, dead letters, trace ids, web and dashboard: thin or easy.
- Idempotency keys and the table of running orchestrations: single dictionary look-ups.
