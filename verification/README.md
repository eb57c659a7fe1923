# A verified model of matfix

matfix is a daemon that sends and receives Matrix messages on behalf of other
programs. This project models its five components with the hardest obligations
and proves what each is relied on for. `dafny verify dfyconfig.toml` checks
everything.

**Outbound queue** (`QueueStore`, `Queue`, `Outbound*`). The table and its SQL
statements are a class; the queue manager, one worker turn, a worker pass and a
submission are methods over it. N workers, concurrent submitters, the capacity-1
wake-up channel, store faults, recovered panics, crashes and the startup restore
are a transition system over the same table functions (`Outbound`), through which
one clock runs forward. Its updates are unguarded, so safety is an ownership
invariant over all runs.

**Correlation** (`Filter*`, `AskFilter`, `Correlation*`). The filter language is
converted, validated, compiled and matched by the same functions and loops as
the source, and compared with a direct reference semantics (`Sem`). Ask and
receive handles are objects with methods (`CorrelationHandles`), and a
transition system (`Correlation`) in which six dispatch goroutines, per-handle
timers, limit resolvers and the sweep race for each handle's `once.Do`. A dispatch
goroutine takes an event off its channel in one step and matches it under the lock
in another. A second caller of `once.Do` returns only after the first body has
finished. `CorrelationAccount` and `CorrelationOrder` keep, for every handle and
event type, an account of what it was offered; `CorrelationDelivery` draws the
consequences, and `CorrelationBacklog` and `CorrelationStale` construct runs.
`CorrelationRefinement` shows that the methods that register, route an event and sweep
do what a path of the transition system does, and `CorrelationTimeouts` that no timeout
is early. Time is in nanoseconds, so truncation to milliseconds is real.

**Event bus** (`Bus`, `BusLock`). Lossy bounded channels with their history, the
bus object with both of its indexes, whose lists are slices of arrays that grow and
shift in place, and publishers in flight under the reader/writer lock.

**Sync loop** (`Sync*`). Normalisation of server events, the dedup cache and the
loop over responses as a class; the same loop across crashes and restarts as a
transition system in which every store call, decryption and cancellation may
fail, and of which the class's loop is a path (`SyncRefinement`). Note that `isSeen`
answers true for a *new* event.

**HTML sanitizer** (`Text`, `Html*`). The printer appends to a shared builder, as
the source does; a strict reader of tags, attributes and entities is its
independent specification, and `HtmlPolicy` writes out which elements, attributes and
link targets stay and where everything ends up. The allowlist is that of the Matrix
Client-Server API v1.16, section "m.room.message msgtypes".

**Retry delays** (`Backoff`, `RetryTimes`). The float64 computation with its
rounding, against exact integers, and the earliest instants at which the attempts on
a job can end.

A run of a transition system is a list of steps and states in which each step is
enabled and each state is the effect of its step; the theorems quantify over all
runs. Store faults have three outcomes: no error, an error before the write, an
error after the write took effect.

## Results worth knowing

- Three properties one would expect do not hold as one would first state them,
  and are proved with their exact conditions.
  - *A receive returns only events published while it is registered.* An event
    published earlier may still wait: in a bus channel, or already in the hand of a
    dispatch goroutine that has not matched it yet. The receive returns it
    (`StaleEventIsReturned` gives a run of each kind). The exact condition is that
    no event of this backlog matches the receive at its registration
    (`ReturnsOnlyLaterIff`; `BacklogCanBeReturned` constructs the run otherwise). In
    general a receive below its limit returns, per event type, exactly the matching
    ones of the backlog and of a selection of later publishes, in order
    (`ReceiveReturnsExactly`), and an ask is resolved by the first of them
    (`AskGetsFirstMatch`).
  - *A computed delay is the exact interval, capped.* The interval is exact on every
    platform if and only if it is in the 63-bit range and the initial interval is a
    float64 (`IntervalIsExactIff`). The delay is the capped exact one if and only if
    that holds or both the computed and the exact interval are at the cap
    (`DelayIsCappedExactIff`): the cap does not help against a conversion or a
    wrapped product that is negative (`OverflowSchedulesInThePast`).
  - *A retried job never passes a job that was never claimed.* From a given instant
    on, with a worker and an account, there is a run in which one does if and only if
    some retry within the policy, after the least waits that must come before it, is
    scheduled back at the epoch (`OvertakesFromIff`; `RetryOvertakesIff` for runs from
    any instant). The condition, `ReachesBack`, is computed from the policy and the
    instant; `ReachesBackIff` says it over all outcomes of the conversions. It needs a
    negative delay (`ReachingBackIsNegative`), but not every policy with one meets it:
    one second doubled over forty retries does within 34 hours when capped at an hour
    (`FortyRetriesOvertake`), and never when uncapped, for its waits take centuries
    (`FortyUncappedRetries`).
- Where code and documentation disagree, the model follows the code.
  - `IsExhausted` is strictly greater, although its comment says "reached or
    exceeded" (internal/queue/retry.go:29-33).
  - The sweep deletes only *pending* rows, although it is described as removing
    resolved and expired ones (internal/correlation/cleanup.go:28-29, 59;
    internal/persistence/store.go:391).
  - A missed cache record is said to cause at most one extra delivery
    (internal/sync/dedup.go:36); each failed lookup or insert and each crash
    between publish and mark can cause one (`BoundedDuplication`).
  - `isSeen` is named for the opposite of what it returns
    (internal/sync/dedup.go:13).
  - The user guide's job states `accepted`, `sent` and `failed` are never
    written.
- Escaping follows golang.org/x/net/html, which escapes six characters. That
  library is not part of the repository.

## Model

| member | source | states |
|---|---|---|
| OutboundOwnership.ExclusiveClaim | internal/worker/worker.go:21-169 | in every reachable state of N workers with faults, panics, crashes and restarts, no two live workers hold the same job, and each held job's row is `sending` |
| OutboundOwnership.TerminalForever | internal/persistence/store.go:268-304 | a row that is acknowledged or dead-lettered never changes again, although no update is guarded |
| OutboundWakeup.NoLostWakeup | internal/worker/worker.go:25-55 | when every worker is blocked, `notify` is empty and no submitter is between insert and wake-up, no serviced account has a queued job due at once, unless a store fault left it owed a poll |
| OutboundWakeup.OwedOnlyAfterFaults | internal/queue/manager.go:84-97 | an account becomes owed a poll only through a failed pull, or an insert that failed after taking effect, and stops being owed once a pull finds nothing |
| OutboundAccounting.AttemptsAreAccounted | internal/queue/manager.go:128-150 | retry counts stay within MaxRetries; claims of a job equal its retries, plus one unless it is queued, plus its restored interruptions |
| OutboundAccounting.MeasureStep | internal/queue/manager.go:128-150 | every step on a job strictly decreases 2*(MaxRetries - retries) + 2/1/0; no other step but a restore touches its row |
| OutboundAccounting.JobsTerminate | internal/queue/retry.go:29-34 | between restarts at most 2*MaxRetries + 2 steps ever work on a job, none once it is terminal |
| OutboundAccounting.FirstClaimOrder | internal/persistence/store.go:237-266 | at a job's first claim, every older job of its account has been claimed; a claim that passes a never-claimed job is of a job scheduled at or before time zero |
| OutboundOvertaking.RetriesYieldToNewJobs | internal/queue/manager.go:128-150 | in a run from an instant from which no retry of the policy reaches back to the epoch, no retried job is claimed while its account has a never-claimed one, across restarts |
| OutboundOvertaking.RetryOvertakesIff | internal/persistence/store.go:237-266 | in some run a retried job is claimed past a never-claimed one of its account if and only if there is a worker, an account, and a retry that can reach back from the earliest instant |
| OutboundOvertaking.OvertakesFromIff | internal/persistence/store.go:237-266 | the same for the runs that start at a given instant: if and only if some retry, after the least waits before it, can be scheduled in the epoch's first millisecond or before |
| OutboundOvertaking.FortyRetriesOvertake | internal/queue/retry.go:13-27 | from any instant up to the year 2262, a run without faults or crashes in which such a claim happens within 34 hours, under an exponential policy of forty retries capped at an hour |
| RetryTimes.ReachesBackIff | internal/queue/retry.go:13-27 | the computed condition holds exactly when, for some outcomes of the out-of-range conversions, the earliest end of some attempt plus the next delay lies before the epoch's second millisecond |
| RetryTimes.ReachingBackIsNegative | internal/queue/retry.go:13-27 | only a policy that admits a negative delay can reach back |
| RetryTimes.FortyUncappedRetries | internal/queue/retry.go:13-27 | a policy that admits negative delays and yet never reaches back, because its waits take longer than its delay goes back |
| RetryTimes.LongFirstWait | internal/queue/retry.go:13-17 | a linear one whose second delay is negative and never reaches back |
| OutboundSubmission.IdempotentSubmission | internal/submission/manager.go:104-133 | all calls that ever succeed for one account and non-empty key return the same job, whose row is the only one with that key |
| OutboundSubmission.RowsAreWhatWasSubmitted | internal/queue/manager.go:76-90 | in every reachable state each row has the account and key its submission began with, the clock reading of its planning and the message of the insert that wrote it |
| Outbound.ProcessOneFollowsProtocol | internal/worker/worker.go:61-127 | the effect of any worker turn, with a job, without one, or with a failed or panicking pull, is a path of the transition system's steps of that worker and its clock, ending at the next account with the work remembered |
| Queue.ProcessOne | internal/worker/worker.go:61-169 | one worker turn: the row claimed is the next eligible one and what its row becomes; success is announced exactly after a delivery, a scheduled retry exactly when the row is queued again with one retry more, exhaustion exactly when it is dead, and nothing otherwise; what a failed or panicking pull leaves, and that nothing eligible was left when no job and no panic is reported |
| Queue.AttemptedRow | internal/queue/manager.go:128-150 | what each outcome makes of the job's row, field by field, and that no other row changes |
| Queue.RunPass | internal/worker/worker.go:31-44 | one turn per account in order, each from the table the one before left; work is reported exactly when some turn handled a job |
| Queue.IdlePassFoundNothing | internal/worker/worker.go:41-54 | a worker goes to sleep, absent failed pulls, only after a pass that changed nothing and found nothing eligible for any account |
| Queue.Submit | internal/submission/manager.go:104-133 | succeeds exactly when the account is known, the destination begins with one of three signs, there is a message, and the key is known or the destination resolves, the message encodes and the insert goes through; a known key adds no row and returns its job, a new one adds one row with the caller's account, message and key, due at once |
| Queue.Manager.Enqueue | internal/queue/manager.go:54-100 | succeeds exactly when the key is known or the message encodes and the insert goes through; adds one queued, unretried row with the given account, message, key and time and signals `notify`, or adds nothing and returns the known job |
| Queue.Manager.ScheduleRetry | internal/queue/manager.go:128-150 | reschedules below the limit, at exactly the returned time, and dead-letters otherwise, writing exactly that row |
| QueueStore.Store.Enqueue | internal/persistence/store.go:200-210 | fails on a taken id or a taken account and key, and otherwise adds exactly the row |
| QueueStore.Store.GetByIdempotencyKey | internal/persistence/store.go:212-228 | finds a row with the key if and only if there is one; an empty key finds none |
| QueueStore.PullOrder | internal/persistence/store.go:237-243 | the row to claim is a queued one of the account that is due, and no other such row has a smaller schedule, or the same and an earlier creation; there is none exactly when no queued row of the account is due |
| QueueStore.Store.PullNext | internal/persistence/store.go:230-266 | claims an eligible row that is first by schedule, then creation, and changes only its state; none only when nothing is eligible |
| QueueStore.Store.UpdateState | internal/persistence/store.go:268-277 | sets one row's state, unconditionally |
| QueueStore.Store.ScheduleRetry | internal/persistence/store.go:279-288 | requeues one row with the given count and schedule |
| QueueStore.Store.RestoreStuck | internal/queue/recover.go:12-21 | turns exactly the `sending` rows into `queued` ones |
| Backoff.IntervalIsExactIff | internal/queue/retry.go:13-21 | the computed interval is the exact product on every platform if and only if it fits in 63 bits and the initial interval is a float64 |
| Backoff.FloatIsNearest | internal/queue/retry.go:19-20 | the float64 of an integer is the nearest number of at most 53 significant bits, and the even one of two |
| Backoff.ZeroIntervals | internal/queue/retry.go:19-20 | a zero initial interval stays zero until the 1024th retry, whose factor is the last finite power of two |
| Backoff.DelayIsCappedExactIff | internal/queue/retry.go:13-27 | the delay is the capped exact interval on every platform if and only if the interval is computed exactly, or computed and exact interval both reach the cap |
| Backoff.NegativeDelayIff | internal/queue/retry.go:13-27 | some retry within the policy has a negative delay on some platform if and only if the initial interval is negative or a product leaves the 63-bit range |
| Backoff.DelayBounds | internal/queue/retry.go:13-27 | a positive cap always holds; in range, delays are non-negative and never shrink with the retry count |
| Backoff.TotalDelayBounds | internal/queue/retry.go:13-27 | the delays of n retries total at most n * MaxInterval when capped, and at most I * (2^n - 1) for exponential backoff in range |
| Backoff.OverflowSchedulesInThePast | internal/queue/retry.go:19-26 | a concrete policy whose 35th retry is scheduled 292 years ago despite its cap |
| CorrelationTheorems.ExactlyOnce | internal/correlation/receive.go:87-142 | in every reachable state a handle has had at most one send or close and one close of `done`; uncompleted, its started timer is pending; completed, it is out of its map and its row final unless the update failed |
| CorrelationTheorems.NoBlockedSendNoDoubleClose | internal/correlation/ask.go:121-139 | the send in `once.Do` finds an empty open channel and the closes are first closes |
| CorrelationTheorems.DeliveredForever | internal/correlation/ask.go:121-139 | once delivered, a result never changes under any later delivery, timer or sweep |
| CorrelationTheorems.ReceiveLimit | internal/correlation/receive.go:104-135 | `collected` never exceeds the limit, at most one limit resolver is launched, everything collected matches filter and account, and a window closed by the limit returns exactly that many |
| CorrelationTheorems.ResultIsSnapshot | internal/correlation/receive.go:123-134 | the delivered result is exactly the collected sequence at the resolving instant |
| CorrelationTheorems.SweepSparesLiveHandles | internal/correlation/cleanup.go:34-60 | a row the sweep deletes belongs to no handle listed at its snapshot, unless that handle is finished and its final update failed |
| CorrelationTheorems.PruneLeavesNoStaleRow | internal/persistence/store.go:389-399 | a deletion that takes effect removes exactly the pending rows whose deadline is set and lies before the sweep's millisecond |
| CorrelationTimeouts.TimeoutsAreNotEarly | internal/correlation/receive.go:85-96 | in no run does an ask time out, or a receive's window run out, before its deadline |
| CorrelationTheorems.AsksIgnoreEchoes | internal/correlation/manager.go:94-105 | in no run is an ask resolved by the bot's own event or by a message carrying the ask's id; what resolves it satisfies the caller's filter |
| CorrelationDelivery.ReceiveReturnsExactly | internal/correlation/receive.go:106-135 | per event type a receive returns an initial part of the matching events served since registration, all of them below the limit; these are the backlog, the event in the dispatcher's hand included, then a selection of later publishes in order |
| CorrelationDelivery.FreshWhenNoBacklog | internal/correlation/manager.go:84-120 | with no matching event buffered or in hand at registration, what is returned is a subsequence, in publish order, of the matching events published while registered |
| CorrelationDelivery.BacklogIsReturned | internal/correlation/manager.go:84-120 | a matching event of the backlog whose service is over is returned, unless the limit came first |
| CorrelationBacklog.ReturnsOnlyLaterIff | internal/correlation/manager.go:84-120 | a receive is sure to return only events published since its registration if and only if no event of the backlog matches it then |
| CorrelationBacklog.BacklogCanBeReturned | internal/bus/local.go:114-118 | otherwise every run up to the registration goes on, with nothing published any more, to one in which the receive returns an earlier event |
| CorrelationDelivery.AskGetsFirstMatch | internal/correlation/manager.go:92-112 | the event that resolves an ask is the first it accepts of those matched since its registration, from the backlog or published since |
| CorrelationDelivery.OpenAskMissedNothing | internal/correlation/manager.go:92-112 | while an ask is open, it accepts none of the events served since its registration |
| CorrelationDelivery.ChannelsKeepLedger | internal/bus/local.go:46-63 | over every run each dispatch channel's handled, buffered and dropped events add up to the published ones of its type, at most 256 are buffered, and order is kept |
| CorrelationDelivery.OriginIsRegistration | internal/correlation/receive.go:81-83 | the state a handle's account starts from is that of its registration step: what was buffered, after what was taken and not yet matched |
| CorrelationStale.StaleEventIsReturned | internal/correlation/manager.go:84-120 | two runs in which a message published before the receive exists is its whole result: one with the message buffered, one with it in the dispatcher's hand |
| CorrelationHandles.OnceBodyEffect | internal/correlation/receive.go:123-134 | the protocol's once body, run without interruption, leaves the handle as it was but finished, with one send or close, one close of `done`, and what was collected delivered |
| CorrelationHandles.ActiveReceive.Collect | internal/correlation/receive.go:106-119 | appends below the limit and says whether this append reached it |
| CorrelationHandles.CorrelationManager.RegisterAsk | internal/correlation/ask.go:35-98 | succeeds exactly when the strengthened filter is accepted and the row inserted; then lists one fresh open handle with its pending row |
| CorrelationHandles.CorrelationManager.RegisterReceive | internal/correlation/receive.go:34-83 | the same for a receive |
| CorrelationHandles.CorrelationManager.DeliverToAsk | internal/correlation/ask.go:121-128 | the first call sends, closes `done`, unlists and resolves the row; later calls change nothing |
| CorrelationHandles.CorrelationManager.ResolveAskTimeout | internal/correlation/ask.go:132-139 | the first call closes both channels, unlists and expires the row; later calls change nothing |
| CorrelationHandles.CorrelationManager.ResolveReceive | internal/correlation/receive.go:123-135 | the first call sends what was collected, closes `done`, unlists and updates the row; later calls change nothing |
| CorrelationHandles.CorrelationManager.HandleEvent | internal/correlation/manager.go:84-120 | completes exactly the listed asks that want the event and resolves exactly their rows, appends it to exactly the listed receives that want it and are below their limit, and launches resolvers for exactly those that reach it; maps and rows change exactly as routing says |
| CorrelationHandles.CorrelationManager.SweepExpired | internal/correlation/cleanup.go:34-68 | completes and unlists exactly the late handles and, with no update failing, expires exactly their rows, keeps those of all other listed handles, and deletes exactly the unlisted pending rows whose deadline lies between zero and the sweep's millisecond |
| CorrelationRefinement.RegisterAskFollowsProtocol | internal/correlation/ask.go:62-110 | a registration is a path of the transition system: the row, the map entry with account, filter and deadline, and the started timer |
| CorrelationRefinement.RegisterReceiveFollowsProtocol | internal/correlation/receive.go:47-96 | the same for a receive, with its limit |
| CorrelationRefinement.HandleEventFollowsProtocol | internal/correlation/manager.go:84-120 | what HandleEvent does to maps, rows and handles is a path of the transition system, from the event in a dispatch goroutine's hand to its return |
| CorrelationRefinement.SweepFollowsProtocol | internal/correlation/cleanup.go:34-68 | what SweepExpired does to maps, rows and handles is a path of the transition system through one whole sweep |
| Filter.RequestFilterToCorrelation | internal/api/receive.go:78-110 | the append loops compute the conversion function on every tree |
| Filter.NewStringSet | internal/correlation/filter.go:21-39 | the map-filling loops compute the sets of the listed values, absent when the list is empty |
| Filter.Compile | internal/correlation/filter.go:131-175 | the compiling loops compute the compilation function on every tree, first error included |
| FilterSemantics.SetMeaning | internal/correlation/filter.go:42-59 | a compiled set admits a value exactly as the two lists do, exclusion over inclusion |
| FilterSemantics.CompilesIffPatternsDo | internal/correlation/filter.go:131-175 | a tree compiles exactly when all of its patterns do |
| FilterSemantics.ValidIffWellFormed | internal/correlation/filter.go:92-126 | validation accepts exactly the well-formed trees |
| FilterSemantics.ErrorIsTrue | internal/correlation/filter.go:92-126 | the error a filter is rejected with names a fault that some node of the tree has |
| FilterSemantics.ErrorPrecedence | internal/correlation/filter.go:92-126 | which of several faults is reported: a node's own first, in order, then those of all_of, any_of and the negated child |
| FilterSemantics.CompiledFilterMeansSource | internal/correlation/filter.go:179-381 | a filter is accepted exactly when well formed, so compilation cannot fail after validation, and its matcher equals the reference semantics on every envelope and account |
| FilterSemantics.ConvertKeepsMeaning | internal/api/receive.go:78-110 | conversion from the API tree preserves the meaning on every envelope |
| FilterSemantics.ConvertRepairsEmptyLists | internal/api/receive.go:97-108 | conversion makes empty child lists acceptable and repairs nothing else |
| FilterSemantics.ApiFilterMeansSource | internal/correlation/filter.go:179-241 | end to end, an API filter that is accepted matches exactly the account's envelopes its tree describes, empty child lists counting as unset |
| FilterLaws.BooleanLaws | internal/correlation/filter.go:204-241 | double negation and both De Morgan laws hold on every envelope |
| FilterLaws.NodeIsConjunctionOfParts | internal/correlation/filter.go:204-241 | a node with several predicates equals the all_of of its single-predicate nodes and combinators |
| FilterLaws.NnfMeaning | internal/correlation/filter.go:204-241 | pushing negation inwards through any tree preserves its meaning, or negates it |
| FilterLaws.NnfShape | internal/correlation/filter.go:92-126 | the result negates only childless nodes and is accepted by the validator |
| FilterLaws.NnfIsInterchangeable | internal/correlation/filter.go:179-241 | the compiled matchers of a tree and of its normal form agree on every envelope and account |
| FilterLaws.OnlyInboundMatches | internal/correlation/filter.go:246-370 | every registered filter, negations included, rejects every non-inbound event |
| AskFilter.PrepareFilter | internal/correlation/ask.go:35-48 | the in-place edits compute the strengthened filter |
| AskFilter.DefaultAddsReply | internal/correlation/ask.go:36-39 | the defaulted reply target adds exactly "is a message replying to the outbound event" |
| AskFilter.ExclusionIsExact | internal/correlation/ask.go:41-48 | excluding the bot adds exactly "the sender or user is not the bot" |
| AskFilter.RegisteredFilterIsExact | internal/correlation/ask.go:35-53 | the registered, compiled filter matches exactly what the caller's filter does, less the bot's events and non-replies |
| Bus.OfferKeepsLedger | internal/bus/local.go:50-61 | a non-blocking send drops the event exactly when 256 are buffered, buffers it last otherwise, and keeps the channel's counts, bound and order |
| Bus.TakeKeepsLedger | internal/bus/local.go:114-118 | so does the dispatch goroutine taking an event |
| Bus.ShiftOut | internal/bus/local.go:98-104 | the in-place slice shift removes exactly one element and keeps the others in order |
| Bus.LocalBus.Publish | internal/bus/local.go:46-63 | every listed subscription of the type is offered the event once, no other channel changes, none is closed |
| Bus.LocalBus.Subscribe | internal/bus/local.go:66-81 | adds a fresh open subscription to both indexes, appended last in its list, in place when the array has room |
| Bus.LocalBus.Unsubscribe | internal/bus/local.go:87-107 | removes it from both indexes, shifting the others down in their array in order, and closes its channel for the first time; an unknown id changes nothing |
| BusLock.PublishersNeverSendOnClosed | internal/bus/local.go:46-107 | in every reachable state the indexes agree, each list is exactly the live subscriptions of its type in subscription order, exactly the channels of the others are closed, each once, and every publisher in flight still holds that list, all of it open |
| Sync.DispatchDischarges | internal/sync/normalize.go:17-49 | however its calls go, dispatching an event publishes it or reports its decryption failure unless nothing is due or it was published before, and keeps the cache sound |
| Sync.ResponseDischarges | internal/sync/loop.go:92-121 | uncancelled, every event of the state and the timeline of every joined and left room, and every receipt of a joined one, ends published or reported |
| Sync.RoomsHold | internal/sync/loop.go:92-121 | what is dispatched is exactly the events of the states and timelines of all rooms and the receipts of the joined ones |
| Sync.RoomOrder | internal/sync/loop.go:99-120 | within a room the state comes first, then the timeline, then the receipts, each in order |
| Sync.RoomsOrder | internal/sync/loop.go:92-120 | joined rooms come before left ones, each kind in order |
| Sync.CancellationStops | internal/sync/loop.go:94-112 | a response found cancelled after some rooms has the effect of just those rooms |
| Sync.AskedInTurn | internal/sync/loop.go:20-72 | the first request uses the stored token, or none if it cannot be loaded; each other one the token of the last batch taken in full, which is then the stored one unless the write fails |
| Sync.TokensAreEarned | internal/sync/loop.go:69-87 | every token the loop asks with or persists is the one it started from or ends a batch already published in full |
| Sync.WaitsDouble | internal/sync/loop.go:31-67 | the waits of the loop are exactly one for each failed request it waits after, of one second doubled for every failure in a row before it, at most sixty |
| Sync.CappedDoubleMeans | internal/sync/loop.go:31-67 | in seconds the waits are 1, 2, 4, 8, 16, 32 and then 60 |
| Sync.SyncManager.IsSeen | internal/sync/dedup.go:17-32 | true exactly for an event without id, a failed lookup, or an id not in the cache |
| Sync.SyncManager.MarkSeen | internal/sync/dedup.go:38-53 | records a non-empty id when the insert takes effect, and changes nothing else |
| Sync.SyncManager.DispatchPlain | internal/sync/normalize.go:121-281 | check, publish, mark: publishes once exactly when new; own events are only marked |
| Sync.SyncManager.DispatchEvent | internal/sync/normalize.go:17-119 | the cache and the bus become what the dispatch function says, for plain and encrypted events |
| Sync.SyncManager.ProcessResponse | internal/sync/loop.go:92-121 | the room loops give the cache and the bus the effect of exactly the items of the rooms reached before cancellation, in order |
| Sync.SyncManager.Run | internal/sync/loop.go:20-89 | the stores, the tokens asked with and the waits become those of the loop function, whose tokens are earned and whose waits double, with cancellation seen at the head, after a failed request, during a wait or within a response |
| SyncTheorems.BatchIsPublishedFirst | internal/sync/loop.go:69-87 | at and after the persisting of a token every event of the states and timelines of its batch, and every receipt of its joined rooms, has been published or reported |
| SyncTheorems.NoLoss | internal/sync/loop.go:33-88 | over any run with faults, cancellations and crashes, every item of the stream before the persisted token has been published, or its decryption failure reported |
| SyncTheorems.BoundedDuplication | internal/sync/dedup.go:17-53 | an event with an id is published at most 1 + failed lookups + failed inserts + crashes between publish and mark times |
| SyncTheorems.DispatchFollowsProtocol | internal/sync/normalize.go:17-281 | what the sequential dispatch does to cache and bus is a path of the transition system through that item |
| SyncRefinement.RunFollowsProtocol | internal/sync/loop.go:20-121 | the token, cache and bus that the loop leaves after any answers are those of a path of the transition system, which ends polling with the loop's token, or down |
| SyncTheorems.PublishedExactlyWhen | internal/sync/normalize.go:24-48 | which events are published at all, if and only if |
| SyncTheorems.MarkedOnlyWhen | internal/sync/normalize.go:24-119 | which events are recorded without being published, and which are decrypted first, if and only if |
| SyncTheorems.DispatchedMeans | internal/sync/normalize.go:17-119 | a due event not known to the cache is published once and recorded; an undecryptable one is reported once and not recorded; the bot's own ones are recorded only; anything else changes nothing |
| SyncTheorems.PublishedAsItself | internal/sync/normalize.go:121-281 | the published envelope carries the event's account, room, id, time and person, and shows every filter the event's body, reply target, redaction target, reaction key and attachment, under a subscribed type |
| SyncTheorems.PublishedUnderItsType | internal/sync/normalize.go:121-281 | each kind of event is published under its own type, at its own nanosecond, and a message with the file it names |
| SyncTheorems.ReceiptsAndFailuresAsThemselves | internal/sync/normalize.go:55-115 | receipts are published with their event, user, kind and time, and decryption failures with the event's id |
| SyncTheorems.SubscribedTypes | internal/correlation/manager.go:52-64 | the six types the correlation manager subscribes to, failures not among them |
| HtmlPrinter.WriteAttr | internal/engine/html.go:125-131 | appends one escaped attribute |
| HtmlPrinter.WriteAllowedAttrs | internal/engine/html.go:103-123 | appends exactly the allowed attributes, in order |
| HtmlPrinter.SanitizeNode | internal/engine/html.go:69-101 | appends the rendering of the node |
| HtmlPrinter.SanitizeHTML | internal/engine/html.go:53-67 | the rendering of the parsed forest, or the escaped input when there is none |
| HtmlTheorems.ReadsBackExactly | internal/engine/html.go:69-131 | the strict reader turns the output back into exactly the cleaned forest, if and only if every written attribute name can be delimited |
| HtmlTheorems.SanitizeReadsBack | internal/engine/html.go:53-67 | the same for the entry point, with its fallback, and what is read back is safe |
| HtmlTheorems.SanitizeIsFixedPoint | internal/engine/html.go:69-101 | printing what was read back emits the same string |
| HtmlTheorems.CleanRenders | internal/engine/html.go:69-101 | the cleaned forest prints the same string, for every forest |
| HtmlTheorems.CleanIsSafe | internal/engine/html.go:14-45 | the cleaned forest has only allowlisted tags, attributes and link targets, childless void elements, and no empty or adjacent texts |
| HtmlTheorems.CleanKeepsText | internal/engine/html.go:69-101 | all text is kept, in document order |
| HtmlPolicy.CleanIsPolicy | internal/engine/html.go:14-142 | the cleaned forest has exactly the elements of a written-out list, each with exactly the attributes that a written-out table and the link rule admit, in order, and every character of text, each in the listed elements around it |
| HtmlPolicy.SanitizedMeetsPolicy | internal/engine/html.go:53-142 | what a reader gets back from the sanitizer is what that policy leaves: no other element or attribute, and links only to fragments and five schemes |
| HtmlPolicy.KeptAttrsAreThoseThatStay | internal/engine/html.go:103-123 | the attributes written are all those that the policy lets stay, in order |
| Text.LowerMeans | internal/engine/html.go:75 | lower-casing by code points |
| Text.TrimMeans | internal/engine/html.go:135 | trimming takes exactly the blanks off both ends |
| Text.EscapeMeans | internal/engine/html.go:125-131 | six characters are written as their entities, the others as themselves |
| Text.DecodeEscape | internal/engine/html.go:125-131 | decoding entities undoes the escaping of any text |

## Left out

- HTTP handlers, the command line, configuration, accounts, key backup, media, metrics and API keys: plumbing without deep invariants.
- The payload codec of a job (internal/queue/job.go): a tag switch whose round trip rests on the JSON library; rows carry the payload as given, and whether a message encodes is a parameter.
- `html.ParseFragment`: the model starts from the node tree, so idempotence through re-parsing is not claimed.
- SQL and SQLite: statements are atomic operations on a map with the schema's two uniqueness constraints; ties in the pull order are left open.
- Clocks that are set back, or stand before the epoch's second millisecond. A clock reading and the statement it is passed to are one step; an out-of-range conversion may give any 63-bit value each time.
- Regular expressions, UUIDs, the clock, sending, syncing, room resolution and decryption: parameters or free choices. Ids are fresh, and the store's millisecond and the timer's clock are one clock.
- Launching the timer goroutine of a handle is not in the two register methods; it is the step `StartTimer` of the transition system.
- Goroutine scheduling: interleavings, the endless worker loop and the blocking of channel operations are steps of the transition systems, not of methods; the methods are one goroutine's view.
- `strings.ToLower` is exact only for characters whose image is ASCII, which is all the allowlist can observe.
- Payload fields no filter reads (formatted bodies, media dimensions, previous membership) and the details of a decryption failure.
- Bus and correlation shutdown, and a process crash in the correlation protocol: rows of an earlier process are arbitrary initial rows that belong to no handle.
- The aliasing of the caller's exclusion list by `append` in `RegisterAsk`: filters are values.
- Overflow of `time.Time.Add`: times are unbounded integers.
- OutboundWakeup.NoLostWakeup: excludes accounts owed a poll after a store fault, which the ticker serves; `OwedOnlyAfterFaults` delimits them.
- CorrelationTheorems.ExactlyOnce: is safety only; that a pending timer eventually fires needs a fair scheduler, which is not modelled.
- SyncTheorems.NoLoss: assumes a server whose answer contains every item between the two tokens, and counts a reported decryption failure as a discharge, as the loop does.
- SyncTheorems.BoundedDuplication: does not speak of events without an id, which are published each time they are seen, nor of cache pruning, which no production code calls.
- HtmlTheorems.ReadsBackExactly: its condition on attribute names always holds of parsed input, but the parser is not part of this model.
- Queue.RunPass: covers one pass over the accounts; the select that follows is in the transition system.
- Sync.SyncManager.Run: takes the server's answers as given; that they depend on the token asked with is in `NoLoss`.
