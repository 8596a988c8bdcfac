# A verified model of the trading runtime

This project models, in Dafny, the parts of the trading program in which several things change together and a
mistake is expensive: the event bus, the market registry, the account state and the projection of order outcomes
onto it, the pausing and resuming of markets by reconcile cycles, the sizing of a stake and the gate it must pass,
the walk over an order book and the signals read from it, the history buffer, and the latency histograms.

Each part comes as a pair. A module named `...Model` (or the pure modules `Kelly`, `Fees`, `Orderbook`, ...) gives the
state as a value and every operation as a function on it, with the lemmas about single operations and whole runs.
Beside it stand classes and methods in the source's own imperative form - fields, loops, arrays - each proved to
leave exactly the state its function describes. What is proved of the functions is therefore proved of the methods.

`dafny verify dfyconfig.toml` checks everything.

## The parts

* **Event bus** (`EventBus.dfy`, `EventBusClass.dfy`, `EventBusRuns.dfy`, `EventBusFates.dfy`, `EventBusLanes.dfy`). A bus
  is tickets, pending events, two low-priority lanes with retained lists, and a wake flag. A blocking publish is two
  steps around its one suspension, the put on a full queue. Runs interleave publishers, suspended publishers, consumers
  and suspended consumers freely; a ledger gives every trading publish its fate, which `EventBusFates.dfy` reads off the
  bus alone, and `EventBusLanes.dfy` follows every low-priority event to its consumer.
* **Registry** (`Markets.dfy`, `Registry.dfy`, `RegistryClass.dfy`, `RegistryThreads.dfy`, `RegistryReads.dfy`).
  Commits on copied indexes, listeners told under the shard lock but outside the commit lock, and lookups that take
  no lock at all.
* **Account state and projections** (`AccountState.dfy`, `ProjectionModel.dfy`, `ProjectionFields.dfy`, `Coverage.dfy`,
  `Rebuild.dfy`, `OrderProjection.dfy`). A position's open-sell figure is a cache of a sum over open orders; some paths keep it
  order by order, one rebuilds it.
* **Reconcile** (`Reconcile.dfy`, `ReconcileRuns.dfy`). The plan for one market, the writes it becomes, and worlds
  in which those writes are carried out late, in any order, among other callers' pauses and resumes.
* **Sizing and gate** (`Kelly.dfy`, `Fees.dfy`, `Risk.dfy`, `SizingThroughGate.dfy`). Amounts are reals; rounding to
  the fee quantum is explicit.
* **Book** (`BookWalk.dfy`, `Orderbook.dfy`, `OrderbookSignals.dfy`). The walk over sorted asks, the fair value, the
  mirror that turns a token's book into the other outcome's, and which way the signals point.
* **History and histogram** (`HistoryBuffer.dfy`, `Histogram.dfy`).

## Where the code does not give what is promised of it

Each of these is a lemma over all inputs that says exactly when the promise holds; the concrete runs and books named
beside some of them show that the failing case occurs.

* A publisher that suspended on a full queue resumes with its old event and can overwrite a newer one, and two
  tickets then stand for one key (`SuspendedPublisherOverwritesNewer`). The lane stays a latest-value first-come queue
  through a run if and only if every resumed publisher is timely: its key is free, nothing was published under it
  meanwhile, and no later call had a ticket (`RunOrderlyExactly`).
* A lane's events reach its consumers as published, each once, if and only if every publish fits (`RunInOrderExactly`):
  a full retained list gives up its oldest event and an event gives way to its namesake, and the general consumer, which
  refills a lane before it takes from it and not after, lets a later event overtake a retained one
  (`GeneralConsumerLetsOvertake`); a lane's own consumer never does (`OwnConsumerKeepsOrder`).
* A lookup overlapping a commit can return a market that no longer carries the token asked for
  (`OverlappedReadExactly`). An index loses a key that a sibling market still carries exactly when a commit drops the
  key's holder or changes its key (`CommitStaysComplete`; `EventSlugIndexIncomplete` shows it for event slugs). Two
  markets sharing a token can make the lookup and the scan differ (`UpsertAgreesExactly`).
* `opened_at` is commented as written once, but a later value replaces it (`MergeKeepsAuthority`).
* A submit and a confirmed cancel work from the snapshot the plan was made on, so the open-sell figure they write is
  right exactly when that snapshot still counts the other open sells right (`SubmitExactly`, `CancelExactly`). The
  order-by-order coverage also goes wrong on a tracked order with nothing remaining and on a full fill that reports a
  remainder (`SellResultExactly`); a submitted buy is cached in shares but leaves an order without any
  (`SubmittedBuyExactly`); a confirmed cancel writes back the shares and cost its caller saw
  (`CancelKeepsHoldingsExactly`). `RunCoversExactly` says for whole runs when the figures stay the sums.
* A pause caused by the market's status alone outlives that status for good unless its reason is one of the passing
  ones (`StatusPauseLasts`); the operator's own pause is marked recoverable and the next calm cycle takes it back; a
  resume planned for an older pause drops a lasting one set since (`PauseSurvivesExactly` covers both).
* A stake can grow with the price, exactly where the dearer quote is lifted to a minimum above the cheaper stake
  (`StakeRisesWithPriceExactly`).
* The early exit in the nearest-sample search needs stamps that repeat only at the end, although the clock may tick
  more coarsely than updates arrive (`EarlyExitExactly`).
* The dust tests of the two sides use each side's own price, so what can be bought here need not be sellable in the
  mirror (`ActionableMirrorsExactly`). A side's depth survives the mirror exactly when it is worth half its shares in
  the band (`DepthMirrorsExactly`), and the depth flow turns into its opposite exactly when the two ratios of the
  depth shifts do, up to rounding (`FlowMirrorsExactly`; `FlowNotMirrored` is a book where it does not).

## Model

| member | source | states |
|---|---|---|
| EventBusModel.RetainKeepsLane | src/polymarket_trader/runtime/event_bus.py:325-334 | Retaining keeps the list within its capacity and its keys distinct, holds the new event, and loses another item only when the list was full, the key new and the item the oldest |
| EventBusModel.FlushLaneConserves | src/polymarket_trader/runtime/event_bus.py:305-323 | A flush leaves queue followed by retained unchanged as a sequence, never overfills the queue, and stops only with nothing retained or no room |
| EventBusModel.FlushKeepsSound | src/polymarket_trader/runtime/event_bus.py:305-323 | A flush keeps bounds, tickets and the quiet-without-wake property; unless paused, a lane whose queue is then empty has nothing retained |
| EventBusModel.PopTicketExact | src/polymarket_trader/runtime/event_bus.py:402-410 | The trading pop is empty exactly when nothing is pending; otherwise it hands out the event of one pending key, forgets that key alone, and leaves every other pending key a ticket |
| EventBusModel.PublishNowaitKeepsSound | src/polymarket_trader/runtime/event_bus.py:136-186 | After a non-blocking publish every pending key still has a ticket, all bounds hold, and a clear wake flag still means nothing to serve |
| EventBusModel.EnqueueKeepsSound | src/polymarket_trader/runtime/event_bus.py:205-209 | The put and what follows it keep the same invariant given room in the queue |
| EventBusModel.NextTradingKeepsSound | src/polymarket_trader/runtime/event_bus.py:252-259 | The trading consumer keeps the invariant and comes back empty exactly when nothing is pending |
| EventBusModel.PopReadyExact | src/polymarket_trader/runtime/event_bus.py:389-400 | A low lane is served only with nothing pending; nothing is returned exactly when nothing is pending and both low queues are empty |
| EventBusModel.NextEventSuspendsExactly | src/polymarket_trader/runtime/event_bus.py:243-250 | The general consumer suspends exactly when nothing is pending, both queues are empty and, unless paused, nothing is retained; while anything is pending it is given a pending event |
| EventBusModel.NextEventKeepsSound | src/polymarket_trader/runtime/event_bus.py:243-250 | Clearing the wake flag before suspending loses no wake-up: the quiet property holds afterwards |
| EventBusModel.ResumeKeepsSound | src/polymarket_trader/runtime/event_bus.py:274-277 | Resuming the low lanes keeps the invariant, ends the pause and leaves the wake flag set |
| EventBusModel.PendingNeverOutgrowsQueue | src/polymarket_trader/runtime/event_bus.py:210-220 | Pending events never exceed the queued tickets nor the capacity, so the drift warning is unreachable |
| EventBusModel.KeysInFields | src/polymarket_trader/runtime/event_bus.py:61-71 | Which events are taken for one another: by merge key, without one by event id in the trading lane and by dedupe, idempotency key, event id, trace among retained ones |
| EventBus.EventBus.constructor | src/polymarket_trader/runtime/event_bus.py:80-123 | Absent capacities take their documented defaults, the retained capacity the largest of the three |
| EventBus.EventBus.PublishNowait | src/polymarket_trader/runtime/event_bus.py:136-186 | In place: coalesce, enqueue, or mirror only when full; low lanes queue or retain; the invariant is kept (what a low lane does with the event is in `EventBusLanes.PublishConserves`) |
| EventBus.EventBus.PublishBegin | src/polymarket_trader/runtime/event_bus.py:188-209 | A blocking publish suspends exactly on a trading event with a new key and a full queue, changing nothing; otherwise it does what the non-blocking one does |
| EventBus.EventBus.PublishFinish | src/polymarket_trader/runtime/event_bus.py:205-209 | Once there is room, ticket, pending event, mirror and wake happen together |
| EventBus.EventBus.NextEvent | src/polymarket_trader/runtime/event_bus.py:243-250 | Flush, pop, and clear the flag only when nothing was popped |
| EventBus.EventBus.NextTrading | src/polymarket_trader/runtime/event_bus.py:252-259 | Tickets without a pending event are skipped; a delivery is followed by a flush |
| EventBus.EventBus.NextMaintenance | src/polymarket_trader/runtime/event_bus.py:261-264 | Serves the maintenance queue's head and refills from the retained list |
| EventBus.EventBus.NextPersistence | src/polymarket_trader/runtime/event_bus.py:266-269 | Serves the persistence queue's head and refills from the retained list |
| EventBus.EventBus.ResumeLowPriority | src/polymarket_trader/runtime/event_bus.py:274-277 | Unpauses, flushes and wakes |
| EventBus.EventBus.PopTrading | src/polymarket_trader/runtime/event_bus.py:402-410 | The pop loop takes exactly the tickets the specification takes |
| EventBus.EventBus.PopReady | src/polymarket_trader/runtime/event_bus.py:389-400 | Trading first, then maintenance, then persistence |
| EventBus.DrainRetained | src/polymarket_trader/runtime/event_bus.py:310-323 | The flush loop equals the recursive flush and reports whether anything moved |
| EventBus.RetainInList | src/polymarket_trader/runtime/event_bus.py:325-334 | The scan finds the first item with the key, or evicts the oldest when full |
| EventBusRuns.EveryInterleavingIsSafe | src/polymarket_trader/runtime/event_bus.py:188-277 | Under every interleaving of blocking and non-blocking publishers and all consumers no pending event is stranded, pending stays within capacity, and no consumer is suspended beside an event it could be given |
| EventBusRuns.StepKeepsInv | src/polymarket_trader/runtime/event_bus.py:136-355 | Every step keeps the books: each pending key is owned by one waiting call whose event it holds and every waiting call owns its key, deliveries are exactly the calls marked delivered, once each and with their own event, suspended publishers are exactly the blocked calls, and each finished call is mirrored exactly once |
| EventBusRuns.NonBlockingRunIsLatestValueFifo | src/polymarket_trader/runtime/event_bus.py:136-186 | From a fresh bus and without blocking publishers keys leave in order of first publication, each delivery is the newest event under its key, and the outbox is the publish log itself |
| EventBusRuns.PublishRefinesList | src/polymarket_trader/runtime/event_bus.py:149-172 | A non-blocking publish does to tickets and pending map what a put does to a plain list with one entry a key |
| EventBusRuns.ServeRefinesList | src/polymarket_trader/runtime/event_bus.py:252-259 | A trading turn takes that list's head |
| EventBusRuns.FrontTicketServed | src/polymarket_trader/runtime/event_bus.py:389-410 | With one ticket per key both consumers are given the front ticket's event |
| EventBusRuns.SuspendedPublisherOverwritesNewer | src/polymarket_trader/runtime/event_bus.py:197-209 | A concrete run in which a suspended publisher leaves two tickets for a key and replaces the newer event |
| EventBusFates.StepMovesFates | src/polymarket_trader/runtime/event_bus.py:136-269 | Every step moves every call's fate as the bus alone says: a waiting call is superseded exactly by a write under its key, delivered exactly by a turn that hands its key out, a blocked one waits once its publisher finishes, and every other fate is final |
| EventBusFates.StepStartsFate | src/polymarket_trader/runtime/event_bus.py:136-209 | A call starts waiting when it takes its key, blocked when it may suspend and must, and is dropped exactly when it may not block and finds a new key and a full queue |
| EventBusFates.EveryCallsFate | src/polymarket_trader/runtime/event_bus.py:136-269 | Over every run a call ends superseded, delivered or still waiting according to what first happens to its key once its event is written, blocked as long as its publisher has not finished, or dropped at once exactly as above |
| EventBusFates.EnqueueOneTicketExactly | src/polymarket_trader/runtime/event_bus.py:205-209 | The put leaves one ticket a key if and only if the key was not pending |
| EventBusFates.FinishLatestExactly | src/polymarket_trader/runtime/event_bus.py:197-209 | A resumed publisher leaves the newest event pending under every key if and only if nothing was published under its key since it started |
| EventBusFates.FinishOrderExactly | src/polymarket_trader/runtime/event_bus.py:197-209 | It keeps tickets in the order of their calls if and only if no later call has had a ticket |
| EventBusFates.RunOrderlyExactly | src/polymarket_trader/runtime/event_bus.py:136-277 | With any publishers the trading lane stays, through a whole run, a first-come queue of distinct keys holding and delivering the newest events if and only if every resumed publisher finds its key free, nothing newer under it and no later call served before it |
| EventBusLanes.PublishConserves | src/polymarket_trader/runtime/event_bus.py:173-186 | A low-priority publish puts its event behind everything queued, takes away nothing but a retained namesake or the oldest of a full retained list, and leaves all others in their order |
| EventBusLanes.PublishAppendsExactly | src/polymarket_trader/runtime/event_bus.py:222-241 | The backlog becomes the old one with the event at its end if and only if a retained event is new there and finds room, or a queued one has nothing retained to overtake |
| EventBusLanes.StepMovesLane | src/polymarket_trader/runtime/event_bus.py:136-277 | Every step of the bus publishes priority 2 into maintenance or a later one into persistence, hands out a lane's head to the consumer it belongs to, or leaves the lane's backlog |
| EventBusLanes.RunConserves | src/polymarket_trader/runtime/event_bus.py:136-334 | Over every interleaving what a lane held and was given is what it handed out, gave up and still holds, counted event by event |
| EventBusLanes.RunInOrderExactly | src/polymarket_trader/runtime/event_bus.py:136-334 | At every point of a run what was handed out followed by the backlog is the starting backlog followed by everything published, if and only if every publish fits at its moment |
| EventBusLanes.LowLaneInOrderExactly | src/polymarket_trader/runtime/event_bus.py:136-334 | The same from a fresh bus; on such runs consumers have received exactly a front part of what was published, in order and each once |
| EventBusLanes.StepKeepsSettled | src/polymarket_trader/runtime/event_bus.py:243-277 | Only a general consumer that takes from a lane leaves room in its queue while events are retained |
| EventBusLanes.OwnConsumerKeepsOrder | src/polymarket_trader/runtime/event_bus.py:252-277 | Without it a lane stays in order as long as every event that has to be retained is new there and finds room |
| EventBusLanes.GeneralConsumerLetsOvertake | src/polymarket_trader/runtime/event_bus.py:243-250 | A concrete run in which the third of three events is handed out before the second |
| RegistryModel.UpsertKeeps | src/polymarket_trader/runtime/registry.py:318-364 | An upsert keeps markets, companions and first-tracked times in step and every index entry pointing at a carrier; a known market keeps its companion, a new one gets a fresh one |
| RegistryModel.UpdateKeeps | src/polymarket_trader/runtime/registry.py:366-401 | An update keeps the same, the companions and the order of markets |
| RegistryModel.RemoveKeeps | src/polymarket_trader/runtime/registry.py:403-455 | A removal keeps the same, forgets that market and leaves every other as it was |
| RegistryModel.ExclusiveTokensAgree | src/polymarket_trader/runtime/registry.py:36-49 | With exclusive, indexed tokens the lookup by token equals the snapshot's linear scan for every token |
| RegistryModel.RunAgreesWithScan | src/polymarket_trader/runtime/registry.py:131-147 | After any run of upserts, updates and removals index entries point at live carriers, and lookup and scan agree if live markets never shared a token on the way |
| RegistryModel.UpsertAgreesExactly | src/polymarket_trader/runtime/registry.py:318-341 | One upsert keeps lookup and scan agreeing if and only if no other market ahead of its place carries one of its tokens |
| RegistryModel.CommitStaysComplete | src/polymarket_trader/runtime/registry.py:318-455 | From complete indexes a commit keeps the index of tokens, slugs or event slugs complete if and only if it takes no key the index points at its market while another tracked market carries it; an update never does |
| RegistryModel.RunStaysComplete | src/polymarket_trader/runtime/registry.py:318-455 | Over any run an index stays complete throughout if and only if no commit of the run takes a key from a sibling |
| RegistryModel.SlugLookupComplete | src/polymarket_trader/runtime/registry.py:141-147 | With both slug indexes complete the lookup finds a market exactly when a tracked one carries the slug |
| RegistryModel.EventSlugIndexIncomplete | src/polymarket_trader/runtime/registry.py:339-340 | A concrete run after which the event slug of a tracked market is not found |
| RegistryModel.SlugLookupSound | src/polymarket_trader/runtime/registry.py:141-147 | What the slug lookup returns is tracked and carries the slug as its own or its event's; an indexed own slug wins over an event slug |
| RegistryModel.ScanByToken | src/polymarket_trader/runtime/registry.py:45-49 | The scan loop returns the first carrier |
| Registry.MarketRegistry.Upsert | src/polymarket_trader/runtime/registry.py:121-122 | With the lock: the commit, then exactly one added notice for a new market; on a timeout nothing |
| Registry.MarketRegistry.Store | src/polymarket_trader/runtime/registry.py:318-355 | The commit of an upsert on copied indexes |
| Registry.MarketRegistry.UpdateMarket | src/polymarket_trader/runtime/registry.py:366-401 | The commit of an update; an unknown market or a timeout changes nothing |
| Registry.MarketRegistry.RemoveMarket | src/polymarket_trader/runtime/registry.py:403-440 | The commit of a removal, then one pruned notice naming the companion that ended |
| Registry.MarketRegistry.GetByTokenId | src/polymarket_trader/runtime/registry.py:135-139 | A market found carries the token and is the stored one |
| Registry.MarketRegistry.GetBySlug | src/polymarket_trader/runtime/registry.py:141-147 | A market found is the stored one and carries the slug as its own or its event's; an indexed own slug takes precedence, and an indexed event slug always finds a market |
| Registry.DetachKeys | src/polymarket_trader/runtime/registry.py:442-455 | The loop removes exactly the listed keys that still point at the market |
| Registry.AttachKeys | src/polymarket_trader/runtime/registry.py:335-340 | The loop points the keys at the market; event slugs already taken keep their holder |
| RegistryThreads.StepKeepsInv | src/polymarket_trader/runtime/registry.py:470-502 | Every step of every thread keeps: a shard lock has the one holder past acquiring it, and what listeners were told plus the notice still due is the market's state |
| RegistryThreads.CommitMatchesNotice | src/polymarket_trader/runtime/registry.py:342-364 | A commit changes its market's life exactly as its notice says |
| RegistryThreads.NoticesAlternate | src/polymarket_trader/runtime/registry.py:356-363 | However threads interleave, each market's notices are added, pruned, added, ... with one companion from added to pruned, and the three key sets coincide |
| RegistryThreads.WriterHasMarketToItself | src/polymarket_trader/runtime/registry.py:470-502 | From taking its shard lock to letting go a thread has its market to itself: no other thread is past acquiring for it, and no step of another changes it |
| Markets.UpdateTouchesOnly | src/polymarket_trader/domain/market.py:92-153 | An update moves the field it names to what it says, keeps the identity of the market, and only fee updates touch fees |
| Fees.ChargedAfterUpdate | src/polymarket_trader/domain/market.py:106-153 | After a fee update the rate charged is the new base whatever override stood, the override as long as it is set, or the base again; a schedule without a base leaves the rate |
| RegistryReads.OverlappedReadSound | src/polymarket_trader/runtime/registry.py:135-139 | A lock-free lookup overlapping any number of commits returns nothing or a market tracked at its second read that carried the token at its first |
| RegistryReads.OverlappedReadExactly | src/polymarket_trader/runtime/registry.py:457-468 | Overlapping one commit it answers as before or after it, except exactly when that commit takes the token from its market |
| AccountModel.MergeKeepsAuthority | src/polymarket_trader/runtime/account_state.py:223-259 | A sparse update keeps all authority fields; an opening time survives exactly the updates that carry none or the same |
| AccountModel.MergeInFields | src/polymarket_trader/runtime/account_state.py:223-259 | A sparse update keeps the slug it does not carry; all other plain fields are the update's |
| AccountModel.KeyInFields | src/polymarket_trader/app/order_projection.py:52-55 | An order's key is its id, else its idempotency key, else its market token, side and status |
| AccountModel.PauseInFields | src/polymarket_trader/domain/account.py:56-78 | Where a pause comes from by its reason, that two reasons only are passing and only for reconciling, and that what is said outright holds |
| AccountState.AccountStateStore.constructor | src/polymarket_trader/runtime/account_state.py:45-57 | A new store is empty, disconnected, unreconciled, and lets no entry through |
| AccountState.AccountStateStore.UpsertPosition | src/polymarket_trader/runtime/account_state.py:101-108 | Stores the merge under the position's own key |
| AccountState.AccountStateStore.UpsertOrder | src/polymarket_trader/runtime/account_state.py:122-128 | Stores the order under its id, else its idempotency key, else the composed key |
| AccountState.AccountStateStore.RemoveOrder | src/polymarket_trader/runtime/account_state.py:130-133 | Removes at most that key |
| AccountState.AccountStateStore.UpdateBalances | src/polymarket_trader/runtime/account_state.py:73-99 | Absent amounts keep the old ones; the allowance is capped |
| AccountState.AccountStateStore.MarkUserStream | src/polymarket_trader/runtime/account_state.py:161-169 | Entries stay allowed only while connected and reconciled; losing the stream forgets the reconcile |
| AccountState.AccountStateStore.SetAllowNewEntries | src/polymarket_trader/runtime/account_state.py:171-174 | The gate cannot be opened while disconnected or unreconciled |
| AccountState.AccountStateStore.MarkReconciled | src/polymarket_trader/runtime/account_state.py:198-205 | A completed reconcile opens the gate exactly when connected |
| AccountState.AccountStateStore.PauseMarket | src/polymarket_trader/runtime/account_state.py:176-191 | A pause replaces any earlier one of the market |
| AccountState.AccountStateStore.ResumeMarket | src/polymarket_trader/runtime/account_state.py:193-196 | Only that market's pause goes |
| ProjectionModel.OpenSellShares | src/polymarket_trader/domain/account.py:197-204 | The accumulator loop is the sum over the open sell orders of the market token |
| ProjectionModel.UpsertOrderTotal | src/polymarket_trader/runtime/account_state.py:122-128 | Storing an order moves every side's sum by what it adds less what it replaces |
| ProjectionModel.RemoveOrderTotal | src/polymarket_trader/runtime/account_state.py:130-133 | Removing one moves every sum by what it held |
| ProjectionModel.FillLowersTotal | src/polymarket_trader/app/order_projection.py:68-73 | A fill of x of what remains of an open order lowers its own sum by exactly x, whatever its size, and no other |
| ProjectionModel.UnknownRemainderCountsSize | src/polymarket_trader/app/order_projection.py:68-73 | An order without a known remainder counts as if its size remained |
| ProjectionModel.SpentCountsNothing | src/polymarket_trader/app/order_projection.py:68-73 | An order that is closed, used up, or of another side or market changes no sum by going |
| ProjectionFields.OpenExactly | src/polymarket_trader/domain/order.py:171-181 | An order is open unless it is known to have ended without resting |
| ProjectionFields.StatusesMatch | src/polymarket_trader/app/order_projection.py:26-49 | Outcomes have their own order status and text but for a timeout, stored as failed; fills and rests leave open orders |
| ProjectionFields.RestingSellInFields | src/polymarket_trader/app/order_projection.py:213-239 | What is stored of a resting or partly filled sell: an open order under the result's id, else the intent's, of the size asked for |
| ProjectionFields.SellRemainderInFields | src/polymarket_trader/app/order_projection.py:76-83 | Filled and remaining make up the size: by the match, else the request less its remainder, else the money over the price |
| ProjectionFields.SellResultInFields | src/polymarket_trader/app/order_projection.py:172-257 | A sell result moves one order and one position: held shares and buy figures stay, the open-sell figure gives up the size found and takes what is left |
| ProjectionFields.OtherOutcomesChangeNothing | src/polymarket_trader/app/order_projection.py:179-190 | Other outcomes, and results without a known position, leave the account as it was |
| ProjectionFields.FoundByKey | src/polymarket_trader/app/order_projection.py:469-477 | A result without an order id finds the one order that carries its intent's key |
| ProjectionFields.SubmittedOrderInFields | src/polymarket_trader/app/order_projection.py:309-330 | A submit stores an open order of the shares to sell or the money to spend |
| ProjectionFields.SubmittedFiguresInFields | src/polymarket_trader/app/order_projection.py:281-307 | A buy adds exactly the shares its money is worth at its price to the open-buy and pending figures; a sell leaves them; neither touches what is held |
| ProjectionFields.CancelInFields | src/polymarket_trader/recovery/action_applier.py:84-99 | A cancelled buy clears both buy figures, any other cancel takes the size from the open sells, and nothing else moves |
| ProjectionFields.ReplacementInFields | src/polymarket_trader/app/order_projection.py:343-390 | The replacing order's side, size, fill and remainder, which make up the size; it is stored exactly when it fills or rests |
| ProjectionFields.ReplaceResultInFields | src/polymarket_trader/app/order_projection.py:333-402 | The old order goes, the new comes, no other order moves, and the position notes the result |
| ProjectionFields.ReconcileOrderInFields | src/polymarket_trader/recovery/action_applier.py:158-241 | Which answers are accepted, which leave an order, and of what size, fill and remainder |
| ProjectionFields.ReconcileFiguresInFields | src/polymarket_trader/recovery/action_applier.py:243-264 | The new order's side's figure gives up what was open of the old and takes what is left of the new; the other side's and what is held stay |
| ProjectionFields.RefusedReplacementChangesNothing | src/polymarket_trader/recovery/action_applier.py:158-159 | A refused replacement leaves the account as it was |
| Coverage.SellResultExactly | src/polymarket_trader/app/order_projection.py:172-252 | From an exact position a sell result keeps it exact if and only if the size found for the order, capped by the open total, is what the replaced order contributed plus a full fill's reported remainder |
| Coverage.SellResultElsewhere | src/polymarket_trader/app/order_projection.py:172-252 | Every other position stays exact if and only if the order under the result's key contributed nothing to it |
| Coverage.CancelExactly | src/polymarket_trader/recovery/action_applier.py:68-99 | For any position the plan saw: a confirmed cancel leaves its position exact if and only if the figure worked out from that position is the sum without the removed order; with none seen, if and only if the stored figure already is |
| Coverage.CurrentCancelExactly | src/polymarket_trader/recovery/action_applier.py:84-99 | With the stored position, and it exact: if and only if the size taken away, capped by the open total, is what the removed order contributed |
| Coverage.StaleCancelExactly | src/polymarket_trader/recovery/action_applier.py:84-99 | With an older snapshot that was exact and knew the order's size: if and only if the other open sells still sum to what they did then |
| Coverage.SubmitExactly | src/polymarket_trader/app/order_projection.py:270-331 | For any snapshot: a submit leaves its position exact if and only if the open-sell figure taken from the snapshot is the sum in the store without the order it replaces |
| Coverage.CurrentSubmitExactly | src/polymarket_trader/app/order_projection.py:270-331 | With the current snapshot and a fresh id: if and only if a position is stored or no sell was open |
| Coverage.ReconcileReplaceExactly | src/polymarket_trader/recovery/action_applier.py:143-265 | A reconcile replacement of a sell keeps a position exact if and only if the size found for the old order is what left the table plus the remainder of a replacement that does not rest |
| Coverage.ReplaceKeepsCoverage | src/polymarket_trader/app/order_projection.py:333-402 | Where all figures are exact, a replace result whose replacement stays in the market of the order it replaces, with both order keys that market's own, keeps every position exact: it rebuilds |
| Coverage.ProjectExactly | src/polymarket_trader/app/order_projection.py:172-402 | From exact figures any projection, on any snapshot, leaves all figures exact if and only if the figure it writes is the sum as the edit of the orders leaves it and no position it does not write sees its sum moved |
| Coverage.RunCoversExactly | src/polymarket_trader/app/order_projection.py:172-402 | Over any run of projections on any snapshots the open-sell figures are the sums throughout if and only if each projection meets that condition in its moment |
| Coverage.RunKeepsCoverage | src/polymarket_trader/app/order_projection.py:172-402 | Over any run of submits, results, cancels and both replacements that are sane - snapshots that still count the other open sells right, results for tracked orders with something left or new ones, full fills that leave nothing, replacements within their market - every position's figure is the sum throughout |
| Coverage.ZeroRemainingBreaksCoverage | src/polymarket_trader/app/order_projection.py:469-477 | A result for a tracked order with nothing remaining keeps the position exact only if nothing at all was open |
| Coverage.FullFillWithRemainderBreaksCoverage | src/polymarket_trader/app/order_projection.py:204-207 | A full fill that reports a remainder leaves the position inexact |
| Coverage.SubmittedBuyExactly | src/polymarket_trader/app/order_projection.py:270-331 | A submitted buy keeps the open-buy figure equal to the sum exactly when it buys nothing |
| Coverage.ProjectKeepsHoldings | src/polymarket_trader/app/order_projection.py:234-252 | Shares, cost, confirmed shares and authority fields survive every projection that saw the stored position |
| Coverage.CancelKeepsHoldingsExactly | src/polymarket_trader/recovery/action_applier.py:87-99 | A cancel keeps shares, cost and all that is held exactly when the snapshot it was given was still right about them |
| Coverage.RefreshRebuilds | src/polymarket_trader/app/order_projection.py:404-448 | A rebuild makes one position's three open figures the sums, touching no order and no other position |
| Rebuild.RebuildExact | src/polymarket_trader/recovery/authority_refresher.py:395-432 | After the refresh every position's open figures are the sums - what the orders' fields make of them is in `Rebuild.FillLowersRebuiltBuy` and the two beside it - everything else it held is unchanged, orders are untouched, and new positions appear exactly where open shares rest without one |
| Rebuild.RebuildIdempotent | src/polymarket_trader/recovery/authority_refresher.py:395-432 | A second refresh changes nothing |
| Rebuild.RebuiltBuyIsTotal | src/polymarket_trader/app/order_projection.py:417-422 | The rebuilt open-buy figure, none without a position, is the sum over open buys, and pending is the same |
| Rebuild.FillLowersRebuiltBuy | src/polymarket_trader/app/order_projection.py:404-448 | Filling x of an open buy's remaining shares lowers its market token's rebuilt figure by exactly x, whatever the size, and no other's |
| Rebuild.UnknownRemainderRebuilt | src/polymarket_trader/app/order_projection.py:68-73 | A buy without a known remainder is rebuilt as if its size remained |
| Rebuild.SpentBuyRebuilt | src/polymarket_trader/app/order_projection.py:68-73 | A buy that is closed or has nothing remaining is rebuilt as if it were gone |
| Rebuild.TargetsCover | src/polymarket_trader/recovery/authority_refresher.py:404-408 | The targets are distinct, carry their position's slug, and leave out only market tokens with neither position nor open figure |
| OrderProjection.ExistingOrderSize | src/polymarket_trader/app/order_projection.py:469-477 | The search loop returns the first matching order's size |
| OrderProjection.FindOpenOrder | src/polymarket_trader/app/order_projection.py:108-121 | The search loop returns the first order of the market under the id |
| OrderProjection.OpenBuyShares | src/polymarket_trader/app/order_projection.py:417-420 | The loop is the sum over open buy orders, whose terms `ProjectionModel.FillLowersTotal` and the two lemmas beside it tell from the orders' fields |
| OrderProjection.AccountStateProjector.ApplySellResult | src/polymarket_trader/app/order_projection.py:172-252 | The store ends as the specification says, for every status and whether or not a position is known |
| OrderProjection.AccountStateProjector.ApplySubmittedIntent | src/polymarket_trader/app/order_projection.py:270-331 | The same for a submitted intent, from the snapshot the caller holds |
| OrderProjection.AccountStateProjector.ApplyReplaceResult | src/polymarket_trader/app/order_projection.py:333-402 | The same for a replace result |
| OrderProjection.AccountStateProjector.RefreshPositionCoverage | src/polymarket_trader/app/order_projection.py:404-448 | The same for a rebuild of one position |
| OrderProjection.ReconcileActionApplier.ApplyResume | src/polymarket_trader/recovery/action_applier.py:64-66 | Only the market's pause is dropped |
| OrderProjection.ReconcileActionApplier.ApplyCancel | src/polymarket_trader/recovery/action_applier.py:68-99 | A confirmed cancel as specified, from the snapshot the plan was given |
| OrderProjection.ReconcileActionApplier.ApplyReplace | src/polymarket_trader/recovery/action_applier.py:143-265 | A reconcile replacement as specified, including a refused one and an order known only to the older snapshot |
| OrderProjection.AuthorityRefresher.CoverageTargets | src/polymarket_trader/recovery/authority_refresher.py:404-408 | The two loops build the targets in order |
| OrderProjection.AuthorityRefresher.RefreshAuthoritativePositionCoverage | src/polymarket_trader/recovery/authority_refresher.py:395-432 | The refresh loop leaves the rebuilt book |
| ReconcileModel.PlanResumesExactly | src/polymarket_trader/recovery/reconcile_service.py:236-299 | A plan resumes exactly a recoverable pause nothing asks to keep, pauses exactly when status, sticky pause or quant asks, never both, and manages exactly the decided orders |
| ReconcileModel.ReasonInFields | src/polymarket_trader/recovery/reconcile_service.py:427-466 | Why a plan pauses: a lasting pause's own reason, else the quant's, else the market's reject reason or its status by name |
| ReconcileModel.PlanInOrder | src/polymarket_trader/recovery/reconcile_service.py:236-299 | The resume comes first, the pause last, and between them the orders one by one as decided |
| ReconcileModel.WritesInOrder | src/polymarket_trader/recovery/reconcile_worker.py:305-350 | The pause is written before any action, the actions in their order |
| ReconcileModel.PlanOutcome | src/polymarket_trader/recovery/reconcile_worker.py:305-350 | Carried out at once, a plan leaves its market paused exactly when it pauses trading, with its reason, and touches no other market |
| ReconcileRuns.RunHolds | src/polymarket_trader/recovery/reconcile_worker.py:300-350 | Over any cycles with any statuses and quant answers a lasting pause stays, non-recoverable and with its reason, until someone else touches the market |
| ReconcileRuns.PauseSurvivesExactly | src/polymarket_trader/recovery/reconcile_service.py:427-466 | A pause keeps its reason in every future nobody else touches if and only if it is non-recoverable with a non-empty reason outside the passing ones and no write already planned resumes or renames it |
| ReconcileRuns.StatusPauseLasts | src/polymarket_trader/recovery/reconcile_service.py:427-433 | A pause made for the market's status lasts exactly when its reject reason is not one of the passing ones |
| ReconcileRuns.OperatorPauseIsTakenBack | src/polymarket_trader/app/operator_service.py:1112-1117 | A manual, recoverable pause is gone after one calm cycle, while the resting-order pause lasts |
| ReconcileRuns.StaleResumeDropsLastingPause | src/polymarket_trader/recovery/reconcile_worker.py:342-350 | A resume planned before a lasting pause was set drops it |
| Reconcile.BuildMarketPlan | src/polymarket_trader/recovery/reconcile_service.py:236-299 | The appended action list is resume, managed orders in order, pause |
| Reconcile.ReconcileWorker.ApplyPlan | src/polymarket_trader/recovery/reconcile_worker.py:305-350 | The pause is written before the actions, which are applied in order |
| Reconcile.ReconcileWorker.ApplyPlans | src/polymarket_trader/recovery/reconcile_worker.py:300-350 | The cycle's loop applies its plans' writes in order |
| Kelly.KellyClosedForm | src/polymarket_trader/domain/kelly.py:157-294 | Past the early checks a quote is accepted exactly when edge and fraction suffice and the recommendation within cap and liquidity reaches the minimum or may be lifted to it; the stake is then the larger of the two, an overbet exactly when above the raw recommendation (which `Kelly.StakeInFields` spells out) |
| Kelly.KellyEnvelope | src/polymarket_trader/domain/kelly.py:97-294 | An accepted stake is at least the effective minimum, at most the effective cap and any given liquidity, and unless rounded up at most the plain cap and the recommendation |
| Kelly.KellyFraction | src/polymarket_trader/domain/kelly.py:199-221 | Its fraction lies in (0, 1] and is (p - c) / (1 - c) less the fee rate times c |
| Kelly.KellyEdge | src/polymarket_trader/domain/kelly.py:157-198 | The edge of an accepted quote reaches the minimum and is fair value less price less the fee per share |
| Kelly.StakeInFields | src/polymarket_trader/domain/kelly.py:219-294 | An accepted stake in the quote's own fields, by what capped it: bankroll times fraction times confidence times ((p - c) / (1 - c) - r c), the share of the bankroll, the liquidity, or the minimum it was lifted to |
| Kelly.ReportInFields | src/polymarket_trader/domain/kelly.py:123-217 | What every quote reports: scaled fraction, minimum, edge before and after the fee, fee per share |
| Kelly.PriceRangeExactly | src/polymarket_trader/domain/kelly.py:133-155 | A price is in range a tick - and never less than a ten thousandth - off either end, or a cent without a tick |
| Kelly.InRangeIsInterior | src/polymarket_trader/domain/kelly.py:137-142 | Prices that pass the range check lie strictly between 0 and 1, so the later guard never fires |
| Kelly.FStarFallsWithPrice | src/polymarket_trader/domain/kelly.py:199-221 | The fraction never rises with the price |
| Kelly.QuotedFStarFallsWithPrice | src/polymarket_trader/domain/kelly.py:97-221 | The same for whole quotes past the early checks |
| Kelly.StakeRisesWithFairValue | src/polymarket_trader/domain/kelly.py:97-294 | The returned stake never falls when the fair value rises, across rejections, caps and rounding up |
| Kelly.StakeRisesWithBankroll | src/polymarket_trader/domain/kelly.py:97-312 | Nor when the bankroll rises |
| Kelly.StakeRisesWithConfidence | src/polymarket_trader/domain/kelly.py:97-294 | Nor when the confidence rises |
| Kelly.UncappedStakeIsProportional | src/polymarket_trader/domain/kelly.py:219-294 | Stakes that nothing caps or lifts are to each other as the confidences behind them |
| Kelly.NoConfidenceNoStake | src/polymarket_trader/domain/kelly.py:219-294 | Without confidence nothing is staked but a lift to the minimum |
| Kelly.StakeRisesWithPriceExactly | src/polymarket_trader/domain/kelly.py:97-294 | Past the early checks a dearer quote stakes more if and only if it is accepted and its own effective minimum exceeds the cheaper quote's stake |
| Kelly.StakeMayRiseWithPrice | src/polymarket_trader/domain/kelly.py:255-279 | Two quotes, both lifted to the market's minimum, of which the dearer stakes more |
| Fees.RoundingError | src/polymarket_trader/domain/fees.py:186-187 | Half-up rounding lands on a multiple of the quantum, moves a value by at most half a quantum and never changes its sign, either way |
| Fees.RoundingNearest | src/polymarket_trader/domain/fees.py:186-187 | No other multiple is nearer |
| Fees.FeesAgree | src/polymarket_trader/domain/fees.py:43-72 | The sizing's fee per share times the size is the venue's rounded fee within 0.000005 |
| Fees.FeeInShares | src/polymarket_trader/domain/fees.py:43-84 | A buyer pays shares, the fee over the price to the nearest quantum, a seller money; a maker, an unknown rate or a market without fees costs nothing |
| RiskModel.PassesExactly | src/polymarket_trader/domain/risk.py:55-130 | An order passes if and only if market, budget, funds and order type all permit it (the funds in the order's and market's fields are in `FundsNeeded`) |
| RiskModel.BudgetInFields | src/polymarket_trader/domain/risk.py:232-283 | A buy fits the budget exactly when it alone and with what is invested fits a positive bankroll |
| RiskModel.CandidatePermitsExactly | src/polymarket_trader/domain/risk.py:445-468 | A market that is only a candidate permits exactly sales its own position covers, unless a hint opposes |
| RiskModel.UnknownMarketPermitsExactly | src/polymarket_trader/domain/risk.py:505-533 | Without a market the caller must have said active or open and nothing against |
| RiskModel.RejectionIsMeant | src/polymarket_trader/domain/risk.py:55-400 | A rejection's reason is true of the request, its field and advice belong to it, and money is asked only where the market permits, funds only within the budget, the order type last |
| RiskModel.ResolvedMarketSaysSo | src/polymarket_trader/domain/risk.py:505-533 | A market recorded as resolved is refused as such even if the caller says it is active and open |
| RiskModel.PassedBuyLog | src/polymarket_trader/domain/risk.py:55-394 | A buy that passes on an eligible market logged nine checks in this order and is told to submit |
| RiskModel.DecisionExplained | src/polymarket_trader/domain/risk.py:398-430 | A rejection carries the reason and field of the last logged check and no check of another name failed; an approval logged only passing checks |
| RiskModel.OnlyEligibleMarketsTrade | src/polymarket_trader/domain/risk.py:445-533 | Whatever hints the caller gives, with a market only an eligible one trades, or a candidate for a sale its position covers; without one the caller must have vouched for it; and an opposing book, resolution, cancellation or archive hint always stops the order |
| RiskModel.EligiblePermitsExactly | src/polymarket_trader/domain/risk.py:445-533 | An eligible market permits the order if and only if no hint of the caller's opposes |
| Risk.RiskManager.CheckOrderIntent | src/polymarket_trader/domain/risk.py:55-130 | The gates run in order on one log, each only if those before it let the order on |
| Risk.RiskManager.CheckMarketState | src/polymarket_trader/domain/risk.py:134-228 | The flag loop stops at the first failing flag, logging it twice; the status is asked last |
| Risk.RiskManager.CheckBankrollTotal | src/polymarket_trader/domain/risk.py:232-283 | Only buys are measured against the bankroll |
| Risk.RiskManager.CheckBalanceAndAllowance | src/polymarket_trader/domain/risk.py:287-345 | Only buys need amount plus estimated fee in balance and allowance, where known (how much that is: `FundsNeeded.TakerBuyNeedsFee`) |
| Risk.RiskManager.CheckBuyOrderType | src/polymarket_trader/domain/risk.py:349-394 | A buy must fill and kill, or be post-only |
| SizingThroughGate.EstimateBounded | src/polymarket_trader/domain/risk.py:480-494 | The estimated taker fee of a buy is at most its money times the rate plus half a quantum; exactly how much it is stands in `FundsNeeded.EstimateInFields` |
| FundsNeeded.EstimateInFields | src/polymarket_trader/domain/risk.py:480-494 | The estimate is amount times rate times (1 - price) to the nearest quantum, the rate none with fees off, else the override, else the base |
| FundsNeeded.TakerBuyNeedsFee | src/polymarket_trader/domain/risk.py:287-345 | A taker buy that passes leaves balance and allowance of at least its money and that fee less half a quantum; with half a quantum to spare neither stops it |
| FundsNeeded.FreeBuyNeedsAmount | src/polymarket_trader/domain/risk.py:473-494 | A maker buy, or one where nothing is charged, needs the money alone |
| FundsNeeded.OddBuyNeverPasses | src/polymarket_trader/domain/fees.py:43-72 | Where a fee is charged a taker buy above a price of one, or of negative money, never passes |
| SizingThroughGate.AcceptedStakePassesGate | src/polymarket_trader/domain/risk.py:55-130 | With portfolio plus effective cap within the bankroll and the cap with its fee and half a quantum within balance and allowance, every accepted stake passes all four gates on an eligible market that no hint of the caller's opposes |
| BookWalkModel.GreedySpendsTarget | src/polymarket_trader/domain/orderbook_derived.py:311-326 | When the asks are worth the target the walk stays within the level sizes and spends exactly the target |
| BookWalkModel.WalkIsOptimal | src/polymarket_trader/domain/orderbook_derived.py:308-349 | No other purchase within the level sizes spending at most the target gets more shares |
| BookWalkModel.FilledRow | src/polymarket_trader/domain/orderbook_derived.py:308-349 | A row is filled exactly when the total ask value reaches the target; then best level, average and worst price are in order and the average is target over shares |
| BookWalkModel.ImpactRises | src/polymarket_trader/domain/orderbook_derived.py:308-349 | Average and worst price never fall as the target grows |
| BookWalkModel.WithinExactly | src/polymarket_trader/domain/orderbook_derived.py:352-366 | A target is within what a price limit offers exactly when the walk fills it without a dearer level |
| BookWalkModel.InverseImpact | src/polymarket_trader/domain/orderbook_derived.py:308-366 | Whatever is fillable within a slippage the walk fills at no more than that slippage |
| BookWalkModel.SlippageExactly | src/polymarket_trader/domain/orderbook_derived.py:336-348 | The average price is the best ask times one plus the slippage, which is missing exactly on unfilled rows or without a positive best ask |
| BookWalk.ImpactRowFor | src/polymarket_trader/domain/orderbook_derived.py:311-348 | The loop with its early stop computes the row of the level-by-level specification |
| BookWalk.FillableWithin | src/polymarket_trader/domain/orderbook_derived.py:352-366 | On sorted asks the early break equals the filtered sum |
| Orderbook.MicropriceMirrors | src/polymarket_trader/domain/orderbook.py:117-154 | In every liquidity branch the complement book's fair value is one minus the book's |
| Orderbook.MicropriceBetween | src/polymarket_trader/domain/orderbook.py:117-154 | With both sides real and uncrossed it lies between the best prices |
| Orderbook.MicropriceLeansExactly | src/polymarket_trader/domain/orderbook.py:117-154 | The distances to ask and bid times the sizes bid and offered balance; so it lies above the middle exactly when the bid is the larger side |
| Orderbook.MicropriceWithoutSizes | src/polymarket_trader/domain/orderbook.py:133-151 | With one side real it is that side's best, with none there is none, without usable sizes the middle |
| Orderbook.RealInFields | src/polymarket_trader/domain/orderbook.py:85-115 | A bid is real above a cent and an ask below ninety-nine, each with levels behind it |
| Orderbook.ActionableInFields | src/polymarket_trader/domain/orderbook.py:156-164 | A side can be traded on exactly when real and, where its size is known, worth at least five |
| Orderbook.ComplementTwice | src/polymarket_trader/domain/orderbook.py:52-68 | The complement of the complement is the book |
| Orderbook.RealSidesSwap | src/polymarket_trader/domain/orderbook.py:85-115 | A side is real in the complement exactly when the other side is real here |
| Orderbook.ActionableMirrorsExactly | src/polymarket_trader/domain/orderbook.py:156-164 | Selling in the mirror matches buying here exactly when the two dust tests agree |
| Orderbook.ActionableNotMirrored | src/polymarket_trader/domain/orderbook.py:156-164 | A concrete book that can be bought here and not sold in the mirror |
| Orderbook.RealPriceBandDepth | src/polymarket_trader/runtime/orderbook_delta.py:232-255 | The loop sums the money within the band, before rounding |
| Orderbook.BandDepthGrows | src/polymarket_trader/runtime/orderbook_delta.py:232-255 | One more level adds its shares at its price exactly if within five cents of the fair value |
| Orderbook.BandDepthMirror | src/polymarket_trader/runtime/orderbook_delta.py:232-255 | A side's depth and its mirror's depth together are the side's shares in the band |
| Orderbook.DepthMirrorsExactly | src/polymarket_trader/runtime/orderbook_delta.py:232-255 | So a side's depth survives the mirror if and only if it is worth half its shares in the band |
| OrderbookDelta.SignalsBounded | src/polymarket_trader/runtime/orderbook_delta.py:264-431 | Direction score, momentum and flow stay within [-1, 1] after rounding |
| OrderbookDelta.SignalMirrors | src/polymarket_trader/runtime/orderbook_delta.py:264-358 | A window of mirrored samples has opposite score and momentum, the same confidence, and with opposite flow the opposite label (which way the label points is in `OrderbookSignals`) |
| OrderbookDelta.LabelOdd | src/polymarket_trader/runtime/orderbook_delta.py:399-417 | Negating all three signals swaps yes and no (which is which: `OrderbookSignals.LabelExactly`) |
| OrderbookDelta.FlowOdd | src/polymarket_trader/runtime/orderbook_delta.py:374-396 | Swapping the two depth shifts negates the flow |
| OrderbookDelta.RatioMirrorsExactly | src/polymarket_trader/runtime/orderbook_delta.py:374-396 | Before rounding the mirrored flow is the opposite one if and only if the shifts of shares less depth stand to each other as the depth shifts do, sides swapped |
| OrderbookDelta.FlowMirrorsExactly | src/polymarket_trader/runtime/orderbook_delta.py:374-396 | The reported flows are opposite if and only if the mirrored ratio and the negated one round alike: always when they are equal, never when they differ by more than a ten thousandth |
| OrderbookDelta.FlowNotMirrored | src/polymarket_trader/runtime/orderbook_delta.py:232-396 | A concrete pair of books, mirrored bid for ask, with negative flow on both sides of the mirror |
| OrderbookDelta.ScoreOdd | src/polymarket_trader/runtime/orderbook_delta.py:420-431 | The score of the opposite shift is the opposite score, rounding included |
| OrderbookDelta.MomentumOdd | src/polymarket_trader/runtime/orderbook_delta.py:361-371 | The same for momentum |
| OrderbookDelta.ComplementSamples | src/polymarket_trader/runtime/orderbook_delta.py:144-162 | A sample of the complement book is the mirrored sample |
| OrderbookSignals.LabelRises | src/polymarket_trader/runtime/orderbook_delta.py:399-417 | With no below neutral below yes, the label never falls when any signal rises |
| OrderbookSignals.LabelExactly | src/polymarket_trader/runtime/orderbook_delta.py:399-417 | Yes exactly when two signals are up by a fifth or the score is and neither other is down by one; no in the opposite case |
| OrderbookSignals.RisenFairValueExactly | src/polymarket_trader/runtime/orderbook_delta.py:264-358 | A fair value that rose by half a cent or more says yes unless the flow is down by a fifth and the speed not up by one, and never no |
| OrderbookSignals.ScoreInFields | src/polymarket_trader/runtime/orderbook_delta.py:420-431 | The score is the shift over two and a half cents up to rounding, rises with it, has its sign and is full from there on |
| OrderbookSignals.MomentumInFields | src/polymarket_trader/runtime/orderbook_delta.py:361-371 | The same for the speed over half a cent a second |
| OrderbookSignals.WindowMomentum | src/polymarket_trader/runtime/orderbook_delta.py:293-311 | A window's momentum is its shift over its seconds over half a cent, up to rounding |
| OrderbookSignals.ShiftInFields | src/polymarket_trader/runtime/orderbook_delta.py:278-291 | The shift measured is the fair value's where known at both ends, else the one the known best prices share |
| OrderbookSignals.FlowInFields | src/polymarket_trader/runtime/orderbook_delta.py:374-396 | Full up when asks alone were consumed, never against the side consumed more, nothing when nothing or both alike moved |
| OrderbookSignals.FlowRises | src/polymarket_trader/runtime/orderbook_delta.py:374-396 | The flow never falls when bids gain more or asks less |
| OrderbookSignals.ConsumedDepthShows | src/polymarket_trader/runtime/orderbook_delta.py:313-324 | A window in which asks alone lost depth has full flow up, bids alone full flow down |
| OrderbookSignals.ConfidenceExactly | src/polymarket_trader/runtime/orderbook_delta.py:434-446 | A tenth a sample, ten at most, half of that while one side was never seen |
| OrderbookSignals.HalfEvenNearest | src/polymarket_trader/runtime/orderbook_delta.py:361-431 | Rounding goes to the nearest, a tie to the even neighbour |
| HistoryBufferModel.KeepsMostRecent | src/polymarket_trader/runtime/orderbook_history_buffer.py:47-63 | The kept tokens, in order, are exactly the max_tokens most recently recorded |
| HistoryBufferModel.BucketsRefineWindow | src/polymarket_trader/runtime/orderbook_history_buffer.py:47-63 | Every kept bucket is a non-empty end of the token's full time window |
| HistoryBufferModel.BucketShape | src/polymarket_trader/runtime/orderbook_history_buffer.py:47-63 | It is in time order, spans at most max_age and ends with the token's last record |
| HistoryBufferModel.LatestIsLastRecord | src/polymarket_trader/runtime/orderbook_history_buffer.py:47-72 | After any run the last sample of a token's bucket is the token's last record, while it is among the most recently recorded tokens |
| HistoryBufferModel.BucketSearch | src/polymarket_trader/runtime/orderbook_history_buffer.py:74-93 | A kept bucket is not empty, and where its stamps repeat only at the end the early exit is the full scan |
| HistoryBufferModel.NothingEvictedIsExact | src/polymarket_trader/runtime/orderbook_history_buffer.py:47-63 | While no more tokens were recorded than are kept, every bucket is the whole window |
| HistoryBufferModel.WindowShape | src/polymarket_trader/runtime/orderbook_history_buffer.py:56-60 | The window holds exactly the samples not older than the last one less the age |
| HistoryBufferModel.EarlyExitExactly | src/polymarket_trader/runtime/orderbook_history_buffer.py:83-93 | The early exit finds what a full scan finds, for every moment, if and only if stamps repeat only at the end |
| HistoryBufferModel.FullScanIsFirstNearest | src/polymarket_trader/domain/orderbook_derived.py:570-589 | The full scan finds the first of the nearest samples |
| HistoryBuffer.OrderbookHistoryBuffer.Record | src/polymarket_trader/runtime/orderbook_history_buffer.py:47-63 | The pruning and eviction loops leave the buckets of the longer history, the recorded token last |
| HistoryBuffer.OrderbookHistoryBuffer.Latest | src/polymarket_trader/runtime/orderbook_history_buffer.py:65-72 | The token's last record of the whole history, if the token is among those kept; nothing otherwise |
| HistoryBuffer.OrderbookHistoryBuffer.SnapshotAt | src/polymarket_trader/runtime/orderbook_history_buffer.py:74-93 | The early-exit search over the bucket; the first of the nearest samples where stamps repeat only at the end; nothing exactly for a token without samples |
| HistoryBuffer.FindSnapshotAt | src/polymarket_trader/domain/orderbook_derived.py:570-589 | The loop stops at the first sample that is no nearer |
| HistogramModel.ExpositionOf | src/polymarket_trader/observability/prometheus_exporter.py:84-106 | One line a bound, never decreasing; an infinite bound's line equals the count line; with usable bounds each line counts the clamped observations within it |
| HistogramModel.ExposesExactly | src/polymarket_trader/observability/metrics.py:459-462 | For every run the lines count exactly the observations within their bounds if and only if no bound that can catch anything is followed by a smaller one |
| HistogramModel.RunCounts | src/polymarket_trader/observability/metrics.py:445-462 | Count, sum and last are those of the clamped observations |
| HistogramModel.RunExtremes | src/polymarket_trader/observability/metrics.py:455-456 | The recorded extremes are reached by an observation and passed by none |
| Histogram.HistogramData.constructor | src/polymarket_trader/observability/metrics.py:426-442 | A fresh histogram has one zero count a bound |
| Histogram.HistogramData.Observe | src/polymarket_trader/observability/metrics.py:445-462 | One observation in place, as specified |
| Histogram.HistogramData.CountInBucket | src/polymarket_trader/observability/metrics.py:458-462 | The loop counts in the first bucket the value fits, if any, and in no other |
| Histogram.Render | src/polymarket_trader/observability/prometheus_exporter.py:89-106 | The running sum renders the cumulative lines, then sum and count |

## Left out

- Event bus: the ticket's sequence number, which only orders equal entries, and string priorities, which are parsed
  elsewhere; broadcast listeners and failures of the sink; negative capacities (an unbounded queue); binding another
  sink while running.
- Registry: the lock wait's length and its warning; more than one listener of a kind and their exceptions, since
  exactly one of each is registered and failures are swallowed.
- Account state: fills and their cap; bulk replacement of positions and orders; publishing the snapshot, which copies
  the tables; the fields of an order that no sum reads (price, order type, trade id, times, reasons).
- Projections: buy results and their exact coverage, which the code does not provide; balances taken over from a
  snapshot.
- Coverage.RunKeepsCoverage: assumes what its `Sane` predicate spells out, which is sufficient only; the necessary and
  sufficient condition is in `Coverage.RunCoversExactly`, which takes from the caller only that snapshots were looked up
  under the market token at hand.
- Reconcile: the audit events and their throttling, failing actions (which change nothing), and how the quant and the
  exit decider arrive at their answers, which are arbitrary inputs here.
- Sizing and gate: Decimal's 28-digit context (reals are exact); the exit signal, volatility, settlement and dispute
  scalings; the audit values attached to checks.
- Kelly.StakeRisesWithFairValue: for a non-negative Kelly fraction and minimum stake, which the configuration gives.
- Kelly.StakeRisesWithConfidence: likewise.
- Kelly.StakeRisesWithBankroll: likewise, and for a non-negative position fraction and overbet ratio.
- Kelly.StakeRisesWithPriceExactly: likewise as for the fair value, and for a fee rate of at most one or a cheaper quote
  with edge enough, since above that rate the fee alone can make the edge rise with the price.
- Book walk: the fixed lists of targets and slippages, of which a row is modelled for any value; whale and median
  statistics, liquidity scores and volatility statistics, which use square roots.
- Order book signals: the sample store's own deque, whose bounds would repeat the history buffer's; the raw deltas
  carried along for audit; the final rounding of the depths to cents.
- History buffer: negative token limits; the memory estimate; a clock that runs backwards between records, since the
  source stamps them with a monotonic one.
- Histogram: label escaping and number formatting of the exposition text; counters and gauges.
- HTTP, streaming, database, process and user-interface code; the small stores and caches beside these parts, which
  would only add easier members of the same families.
