# A verified model of the trading exchange

A small stock exchange: brokers connect over TCP to a gateway process, which validates and numbers their orders
and passes them through shared memory to an exchange process with one matching engine per instrument. These
modules model its core and prove what it promises, for all inputs and all runs.

| files | what they model |
|---|---|
| `Options`, `TradingTypes`, `Ticks` | orders, events, and the grid of prices, over reals |
| `PriceTime` | price-time priority on a flat book: a sequence of orders, no levels, no index, no cached prices |
| `ExchangeOrders`, `MatchingEngine` | the engine as it is: two arrays of lists, an id index, cached best prices, updated in place, and proved to do what `PriceTime` says; the compile-time switch for self-trade prevention is a field, and both values are proved |
| `PriceTimeLaws`, `RestLaws`, `FillLaws`, `EngineRuns`, `EngineStatus`, `FlagLaws`, `EngineEdges` | what follows: allocation, what comes to rest, priority, fair prices, grouping, conservation, an uncrossed book, status histories and their flags, and the edges of all that |
| `FreeList`, `FreeListProgress`, `DequeueClaims`, `DequeueRefusals` | the lock-free parts of the queue under all hand-offs between threads, one atomic access per step |
| `BlockIndex`, `ImplicitProducer`, `Remainders` | one producer's blocks and their circular index, undisturbed |
| `BlockRaces`, `BlockReaders`, `BlockWriters`, `QueueRaces`, `QueueProgress`, `WordLookUps` | the same with the enqueuer and any number of dequeuers at work, one access per step, and with the claims of `DequeueClaims`; that nothing goes wrong, and that calls end |
| `RingBuffer`, `RingBufferRuns` | the shared-memory ring buffer, as one thread sees it and as two threads' steps |
| `Framing`, `SockMsgs`, `TcpSockets`, `OneShot` | length-prefixed messages, their numbers in the common queue, the socket loops, and the one-shot arming of descriptors |
| `OrderIds`, `ExchangeServers`, `Exchanges`, `Routing`, `Deliveries`, `Market`, `MarketIntake`, `MarketNotices` | sessions, order ids, the gateway, the exchange, all of them together, who got which message, and the laws of a single engine carried over to every engine of a running market and to what brokers are told |

The engine's methods carry ghost copies of the book and of the incoming order; they are proved against
`PriceTime.Submit` and `PriceTime.Without`, and everything in the law modules is proved about those two functions.
The concurrent parts are machines: a datatype for everything the program has, a function for each thread's next
access, and a second datatype that no access reads for what the proof remembers. A run is any sequence of
steps, and a step that is not possible does nothing. The gateway and the exchange are classes whose methods
are proved equal to functions of their state, and to keep what the modules prove about those; `Routing` runs the
functions together.

Where the code and its comments disagree the code is followed. Findings of this kind:

- The parser's loop asks for more bytes than a header, so an empty message at the end of a stream is not
  delivered until something follows it (`Framing.RoundTripIff`, `Framing.EmptyMessageIsStuck`).
- A message that the full queue of messages refused is tried again only when more bytes arrive on its connection
  (`OneShot.RefusedWaits`).
- Validation accepts a quantity of zero, which breaks the status histories unless the order misses
  (`EngineStatus.EmptyOrderIsLegalIff`, `EngineStatus.HistoriesAreLegal`, `EngineEdges.EmptyOrderDoesHarm`), and
  leads to Unfilled market orders although self-trades are allowed (`EngineEdges.UnfilledIff`,
  `EngineEdges.EmptyAskLeavesUnfilled`).
- The status flag of an incoming order is set on every partial fill, so not every flag means a change
  (`FlagLaws.OwnFlagsAreExactIff`, `FlagLaws.FlagIsSpurious`).
- Session ids are 16 bits and come back after 65536 connections, live or not (`OrderIds.SessionIdsRepeat`,
  `Routing.MessagesGoToCongruent`, `Deliveries.MessageGoesAstray`). The server closes no descriptor, so it takes as
  many open ones.
- A new connection is armed before its session is registered. If its hang-up is noticed in between, there is no
  session to remove yet, and the one registered afterwards stays for ever (`Routing.EveryConnectionHasItsSession`,
  `Routing.SessionStrays`, `Routing.StraysStay`).
- When an engine's queue refuses an order, the complaint about that reads an order that was already moved away,
  before the lookup map is written: a full queue ends the exchange. With logging switched off, which it is not by
  default, the order is lost instead, and the lookup map still names its engine
  (`Exchanges.Exchange.GiveToMatchingEngine`, `Routing.ExchangeGoesOn`).
- Dequeueing can fail on a queue with an unclaimed element while other dequeuers are active
  (`DequeueRefusals.GivesUpIff`, `DequeueRefusals.GivesUpInVain`).

## Model

| member | source | states |
|---|---|---|
| `Ticks.LevelCount` | src/core/MatchingEngine.cpp:40-41 | each side of the book has exactly 10099 price levels |
| `Ticks.NearestTick` | src/core/MatchingEngine.cpp:23-26 | a price has level i if and only if it is within half a tick of the price of i (a tie goes up) |
| `Ticks.ValidPricesHaveLevels` | src/core/ExchangeServer.cpp:463-474 | every limit price that passes validation has a level inside the vectors |
| `Ticks.Monotone` | src/core/MatchingEngine.cpp:23-26 | a higher price never has a lower level |
| `Ticks.IndexRoundTrip` | src/core/MatchingEngine.cpp:23-31 | the level of the price of a level is that level |
| `PriceTime.Best` | src/core/MatchingEngine.cpp:233-258 | the best order an incoming order may trade with: eligible, at the best price, and the first to arrive there; none only if no order is eligible |
| `PriceTime.ResumeTrade` | src/core/MatchingEngine.cpp:260-289 | one trade with the best order: its event, the grouped fill still pending, and the rest of the match |
| `PriceTime.ResumeFlush` | src/core/MatchingEngine.cpp:294-296 | once a level is spent its fills can be announced as one event without changing the outcome |
| `PriceTime.ResumeEnd` | src/core/MatchingEngine.cpp:299-312 | with nothing eligible left, the pending fill is announced and the match ends with what `Finish` makes of the order, which `RestLaws.SubmitRests` and `EngineEdges.UnfilledIff` pin down |
| `PriceTime.WithoutAt` | src/core/MatchingEngine.cpp:78-84 | a cancelled order leaves; all others keep their relative order |
| `ExchangeOrders.ExchangeOrder.constructor` | src/core/ExchangeOrder.cpp:8-22 | a new order has its whole quantity left, is not accepted yet, and belongs to the session packed into its id |
| `ExchangeOrders.LevelsAfterErase` | src/core/MatchingEngine.cpp:277-282 | erasing one node from one level of an array of lists is erasing that order from the arrival order |
| `ExchangeOrders.LevelsAfterAppend` | src/core/MatchingEngine.cpp:208-213 | pushing an order at the back of its level is appending it to the arrival order |
| `ExchangeOrders.IndexAfterErase` | src/core/MatchingEngine.cpp:278-279 | the id index without the erased id still names exactly the resting orders |
| `ExchangeOrders.IndexAfterAppend` | src/core/MatchingEngine.cpp:213-214 | the id index with the new entry names exactly the resting orders |
| `MatchingEngines.MatchingEngine.constructor` | src/core/MatchingEngine.cpp:35-48 | a new engine has an empty book of 10099 levels a side, no best prices, an empty index, and meets its invariant |
| `MatchingEngines.MatchingEngine.UpdateQtyAndStatus` | src/core/MatchingEngine.cpp:180-188 | both orders lose the traded quantity and are Filled or PartiallyFilled accordingly |
| `MatchingEngines.MatchingEngine.EraseNode` | src/core/MatchingEngine.cpp:277-280 | a node leaves its level, the index and the flat book, and the three keep agreeing |
| `MatchingEngines.MatchingEngine.RecordTrade` | src/core/MatchingEngine.cpp:260-275 | the traded quantity is the smaller remainder, and the resting order's event carries its new snapshot and an exact flag |
| `MatchingEngines.MatchingEngine.TradeWith` | src/core/MatchingEngine.cpp:260-283 | one trade in place is one trade of the flat specification; a filled order leaves all structures |
| `MatchingEngines.MatchingEngine.NodeIsBest` | src/core/MatchingEngine.cpp:250-258 | the node the scan has reached is the best order of the flat book |
| `MatchingEngines.MatchingEngine.SweepLevel` | src/core/MatchingEngine.cpp:245-297 | the inner loop over a level leads to the outcome of the flat specification, or leaves nothing to trade at that level |
| `MatchingEngines.MatchingEngine.AddOrderToBook` | src/core/MatchingEngine.cpp:205-215 | a limit order rests as the last of the flat book, in its level and in the index |
| `MatchingEngines.MatchingEngine.FinishOrder` | src/core/MatchingEngine.cpp:299-313 | an order that can trade no more rests, is reported Unfilled or is dropped, as `PriceTime.Finish` has it; `RestLaws.SubmitRests` says in closed form when it rests, and with what |
| `MatchingEngines.MatchingEngine.ScanStart` | src/core/MatchingEngine.cpp:221-233 | starting at the cached best price passes over no order that could trade |
| `MatchingEngines.MatchingEngine.ScanBids` | src/core/MatchingEngine.cpp:233-297 | the scan of the bids ends with the specified book and events, or with nothing left to trade |
| `MatchingEngines.MatchingEngine.ScanAsks` | src/core/MatchingEngine.cpp:330-383 | the scan of the asks ends with the specified book and events, or with nothing left to trade |
| `MatchingEngines.MatchingEngine.MatchAggressingSellOrder` | src/core/MatchingEngine.cpp:218-313 | an incoming sell, limit or market: book and events are those of price-time priority on the flat book |
| `MatchingEngines.MatchingEngine.MatchAggressingBuyOrder` | src/core/MatchingEngine.cpp:316-398 | an incoming buy, limit or market: book and events are those of price-time priority on the flat book |
| `MatchingEngines.MatchingEngine.FindBestBid` | src/core/MatchingEngine.cpp:449-458 | the price of the first order of the highest level with a bid, or the marker for none |
| `MatchingEngines.MatchingEngine.FindBestAsk` | src/core/MatchingEngine.cpp:461-470 | the price of the first order of the lowest level with an ask, or the marker for none |
| `MatchingEngines.MatchingEngine.UpdateBestBidAndAsk` | src/core/MatchingEngine.cpp:432-446 | both cached best prices are right again |
| `MatchingEngines.MatchingEngine.ProcessOrder` | src/core/MatchingEngine.cpp:407-427 | one dequeued order: the flat specification's book and events, and the whole invariant (levels, index, best prices) afterwards |
| `MatchingEngines.MatchingEngine.LookupMeans` | src/core/MatchingEngine.cpp:67-73 | an id is in the index if and only if its order rests in the book |
| `MatchingEngines.MatchingEngine.CancelOrder` | src/core/MatchingEngine.cpp:67-88 | succeeds if and only if the order rests; removes it alone, keeps the order of the others and the invariant |
| `MatchingEngines.MatchingEngine.SendDone` | src/core/MatchingEngine.cpp:93-96 | an order is marked Done and told so |
| `MatchingEngines.MatchingEngine.ClearLevel` | src/core/MatchingEngine.cpp:100-107 | a level is emptied, with one Done event for each of its orders |
| `MatchingEngines.MatchingEngine.ClearSide` | src/core/MatchingEngine.cpp:98-109 | a side is emptied level by level |
| `MatchingEngines.MatchingEngine.ClearBook` | src/core/MatchingEngine.cpp:91-113 | both sides are empty afterwards, every resting order is Done, and the events are those of the cleared levels in order |
| `PriceTimeLaws.MatchAllocates` | src/core/MatchingEngine.cpp:218-398 | the book after a match in closed form, for any book and any order: every order has traded what price-time priority leaves it after the quantity ahead of it |
| `PriceTimeLaws.MatchTradesAllItCan` | src/core/MatchingEngine.cpp:260-289 | the quantity traded is the smaller of what came in and what was eligible |
| `RestLaws.SubmitRests` | src/core/MatchingEngine.cpp:299-312 | the whole book after any new order in closed form: every order of the old book less its allocation, then what the eligible quantity leaves of the new one if it is a limit order and there is any (or it met no order), Accepted if it met none and PartiallyFilled if it did, and nothing otherwise |
| `RestLaws.EveryLimitOrderIsAccounted` | src/core/MatchingEngine.cpp:218-398 | over any run, every limit order ever placed rests, or was told that all of it traded, or was cancelled while it rested |
| `FillLaws.TradesAreEligible` | src/core/MatchingEngine.cpp:235-258 | every trade is with an order of the book before, as it rested there, of the other side, at a level within the limit, and of another session if self-trades are prevented |
| `FillLaws.MatchWorsens` | src/core/MatchingEngine.cpp:233-250 | the prices of a match only get worse for the incoming order |
| `FillLaws.PriorityIsRespected` | src/core/MatchingEngine.cpp:218-398 | if a match trades with an order at all, every eligible order ahead of it is filled: it is gone from the book |
| `FillLaws.FillsAreFair` | src/core/MatchingEngine.cpp:235-247 | no fill is worse than either order's limit by more than half a tick |
| `FillLaws.FillsAreGrouped` | src/core/MatchingEngine.cpp:245-296 | at every price the incoming order is told the sum of the resting fills there, in at most one event |
| `FillLaws.FillsAreInOrder` | src/core/MatchingEngine.cpp:245-296 | the events of a submission come price by price, from the best to the worst, and at each price the incoming order's own event is the last |
| `EngineRuns.TradeConserves` | src/core/MatchingEngine.cpp:260-289 | a trade keeps the accounts of all orders and of both sides, the pending fill included |
| `EngineRuns.CancelConserves` | src/core/MatchingEngine.cpp:67-88 | a cancel keeps the accounts |
| `EngineRuns.QuantityIsConserved` | src/core/MatchingEngine.cpp:180-188 | over any run: each order's quantity is what it has left plus what it was told it traded, every snapshot says so, and buyers and sellers were told the same total |
| `EngineStatus.MatchExhausts` | src/core/MatchingEngine.cpp:233-312 | a match ends only when the order is filled or nothing in the book may trade with it |
| `EngineStatus.NeverCrossed` | src/core/MatchingEngine.cpp:233-257 | in every reachable state a bid at or above an ask belongs to the ask's session, and without self-trade prevention there is no such pair |
| `EngineStatus.ResumeFlagsAreExact` | src/core/MatchingEngine.cpp:271-275 | from any point of a match on, a resting order's flag is set if and only if its status differs from the one it was last announced with |
| `EngineStatus.EmptyOrderIsLegalIff` | src/core/MatchingEngine.cpp:260-289 | an order for nothing, which validation lets through, keeps all histories legal and all resting statuses as announced if and only if it is a market order that nothing can trade with |
| `EngineStatus.HistoriesAreLegal` | src/core/MatchingEngine.cpp:271-306 | at every moment of a run each order was announced Accepted, PartiallyFilled any number of times, then Filled, Unfilled or Done, resting orders have the status announced last, and their flags meant a change, if and only if every order for nothing was a market order that nothing could trade with |
| `FlagLaws.OwnFlagsAreExactIff` | src/core/MatchingEngine.cpp:284-306 | the flags of all events of a new order itself mean a change if and only if it does not empty two price levels with something left to trade; or, if it asks for nothing, if and only if it meets no order |
| `FlagLaws.FlagIsSpurious` | src/core/MatchingEngine.cpp:284-296 | buying three when one is offered at 1.00 and one at 2.00: the second fill is flagged like the first, although the status is the same |
| `EngineEdges.LiveIffNotEmpty` | src/core/MatchingEngine.cpp:260-263 | a new order keeps the statuses that resting orders carry right (announcements apart) if and only if it asks for something or its best match is already PartiallyFilled (or it is a market order without one) |
| `EngineEdges.EmptyOrderDoesHarm` | src/core/MatchingEngine.cpp:260-275 | an order for nothing, which validation lets through, makes an untraded bid PartiallyFilled |
| `EngineEdges.UnfilledIff` | src/core/MatchingEngine.cpp:299-306 | for any book: a new order is told Unfilled if and only if it is a market order with orders on the other side, and none that it may trade with has anything left (or, if it asks for nothing, there is none) |
| `EngineEdges.UnfilledIffOnlyOwnOrders` | src/core/MatchingEngine.cpp:299-306 | where everything that rests has something left, an order for more than nothing is told Unfilled if and only if it is a market order, self-trades are prevented, and only its own session has orders on the other side |
| `EngineEdges.UnfilledInRuns` | src/core/MatchingEngine.cpp:299-306 | so in every run in which each order for nothing missed, Unfilled is never told when self-trades are allowed, and otherwise only for want of other sessions' orders |
| `EngineEdges.EmptyAskLeavesUnfilled` | src/core/MatchingEngine.cpp:299-306 | but an ask for nothing rests, and a market order of another session that meets it is told Unfilled although self-trades are allowed |
| `EngineEdges.ClearedOnce` | src/core/MatchingEngine.cpp:91-113 | clearing sends exactly one Done for each resting order |
| `EngineEdges.ClearedInOrder` | src/core/MatchingEngine.cpp:98-113 | a side is cleared from its lowest price up, and at each price in the order of arrival |
| `EngineEdges.ClearingEndsHistories` | src/core/MatchingEngine.cpp:91-113 | after any run and a clear each resting order's last status is Done; the run was legal throughout, the clear included, if and only if every order for nothing missed |
| `FreeLists.GetTakeRefKeeps` | src/misc/libraries/concurrentqueue.h:1481-1485 | a reference is taken only of a node whose count was not zero, so never of one being pushed |
| `FreeLists.GetDropRefsKeeps` | src/misc/libraries/concurrentqueue.h:1493-1497 | the successful getter drops its own and the list's reference together |
| `FreeLists.PushUndoKeeps` | src/misc/libraries/concurrentqueue.h:1530-1535 | after a failed push the flag is set again, and whoever takes the last reference away pushes |
| `FreeLists.PoppedIsLinked` | src/misc/libraries/concurrentqueue.h:1489-1490 | the stale-head case: a getter that swings the head puts the right second node there, however long ago it read it |
| `FreeLists.StepKeeps` | src/misc/libraries/concurrentqueue.h:1459-1538 | every atomic access of every thread keeps the reference counts, the responsibilities, the list and the history in step |
| `FreeLists.RunKeeps` | src/misc/libraries/concurrentqueue.h:1459-1538 | so does every interleaving of any number of threads |
| `FreeLists.NeverHandedOutTwice` | src/misc/libraries/concurrentqueue.h:1473-1510 | between two times a node is handed out it was given back |
| `FreeLists.ListIsSound` | src/misc/libraries/concurrentqueue.h:1450-1538 | walking from the head ends, meets no node twice, and meets no node that a user holds |
| `FreeLists.TakenIsNotFlagged` | src/misc/libraries/concurrentqueue.h:1491-1493 | the assertion in try_get holds: a node just taken does not carry the flag |
| `FreeLists.NothingIsLost` | src/misc/libraries/concurrentqueue.h:1459-1538 | when all calls have returned the list has exactly the nodes given back, with one reference each, and the others have none |
| `FreeLists.MovesAreEnabled` | src/misc/libraries/concurrentqueue.h:1459-1538 | no thread ever refers to a node that does not exist |
| `FreeListProgress.ReturnsWithoutNodeIff` | src/misc/libraries/concurrentqueue.h:1473-1510 | in every run a thread returns from try_get without a node if and only if its attempt is over and the head it saw last, loaded or handed to it by its failed swing, was null; with one if and only if it has just given up the references to it, and that is the node handed out; otherwise it goes on, with the head it saw |
| `FreeListProgress.AloneItGets` | src/misc/libraries/concurrentqueue.h:1473-1510 | after any run, a try_get that nobody disturbs, whatever calls others have in progress, returns the first node of the list within six accesses if there is one, and none at once if and only if the list is empty |
| `FreeListProgress.AloneItGives` | src/misc/libraries/concurrentqueue.h:1459-1538 | an undisturbed add puts its node first on the list if nobody refers to it, and otherwise leaves it to the last one who does |
| `DequeueClaims.CircularAgrees` | src/misc/libraries/concurrentqueue.h:477-483 | on counts less than a range apart the wrapped comparison is right if and only if they are closer than half of it |
| `DequeueClaims.WithinAgrees` | src/misc/libraries/concurrentqueue.h:2556-2561 | the dequeuer's test on wrapped counters is the test on the true counts |
| `DequeueClaims.ServedWithinTail` | src/misc/libraries/concurrentqueue.h:2559-2562 | tickets that passed the test never outnumber the published elements |
| `DequeueClaims.PassKeeps` | src/misc/libraries/concurrentqueue.h:2555-2561 | passing the test with a stale overcommit count is safe: staleness only makes it stricter |
| `DequeueClaims.StepKeeps` | src/misc/libraries/concurrentqueue.h:2551-2615 | every access of every dequeuer, and every publication, keeps the accounts of the tickets |
| `DequeueClaims.RunKeeps` | src/misc/libraries/concurrentqueue.h:2551-2615 | so does every interleaving in which no dequeuer is lapped |
| `DequeueClaims.HeadNeverPassesTail` | src/misc/libraries/concurrentqueue.h:2562 | headIndex never passes tailIndex, and the i-th claim is of index i |
| `DequeueClaims.ClaimIsOfPublished` | src/misc/libraries/concurrentqueue.h:2562 | a claim is of the next index, by one dequeuer, and of an element published before |
| `DequeueClaims.QuietCountersBalance` | src/misc/libraries/concurrentqueue.h:2559-2614 | with no call in progress optimistic count less overcommit is the head |
| `DequeueClaims.AloneItIsAQueue` | src/misc/libraries/concurrentqueue.h:2551-2615 | a dequeuer nobody disturbs gets the oldest element if and only if there is one |
| `DequeueClaims.ShortRunsNeverLap` | src/misc/libraries/concurrentqueue.h:477-483 | no run of fewer than 2^63 steps laps |
| `DequeueRefusals.GivesUpIff` | src/misc/libraries/concurrentqueue.h:2554-2556 | a dequeuer gives up at its first test if and only if every element published when it read the tail is claimed by now, or covered by a ticket whose fate is open or that was counted as failed since it read the failures |
| `DequeueRefusals.TicketFailsIff` | src/misc/libraries/concurrentqueue.h:2559-2561 | with its ticket it gives up if and only if every element published by now is covered by an earlier ticket that passed, is open, or was counted as failed since |
| `DequeueRefusals.GivesUpInVain` | src/misc/libraries/concurrentqueue.h:2551-2615 | a run in which an undisturbed dequeuer gives up although two elements were published and one is claimed: a doomed ticket is not counted yet |
| `BlockIndexes.PositionIsRight` | src/misc/libraries/concurrentqueue.h:2948-2964 | every index in an owned block resolves to the entry with its base as key and that block as value |
| `BlockIndexes.NextIsFree` | src/misc/libraries/concurrentqueue.h:2907-2910 | an entry without a block behind the tail is the place of no owned block |
| `BlockIndexes.InsertFits` | src/misc/libraries/concurrentqueue.h:2901-2915 | entering a block keeps every other lookup |
| `BlockIndexes.RewindFits` | src/misc/libraries/concurrentqueue.h:2935-2939 | a key left by an attempt that found no block does no harm |
| `BlockIndexes.ReleaseFits` | src/misc/libraries/concurrentqueue.h:2599-2606 | clearing a block's entry keeps every other lookup |
| `BlockIndexes.GrownFits` | src/misc/libraries/concurrentqueue.h:2966-3008 | growing the index preserves every lookup |
| `ImplicitProducers.CopyEntries` | src/misc/libraries/concurrentqueue.h:2982-2995 | the copying loop: old entries from behind the tail round to it, then as many unused ones |
| `ImplicitProducers.TakeFits` | src/misc/libraries/concurrentqueue.h:2565-2609 | taking an element changes its own block only, finds the element there, and counts to the block size exactly when all its elements are taken |
| `ImplicitProducers.OwnedAfterTake` | src/misc/libraries/concurrentqueue.h:2599-2608 | the owned blocks stay exactly those with elements to come or to take |
| `ImplicitProducers.LeewayIff` | src/misc/libraries/concurrentqueue.h:2493-2497 | the guard against a queue that is too long: on a queue shorter than the range of a word it refuses a new block exactly from half that range on |
| `ImplicitProducers.ImplicitProducer.constructor` | src/misc/libraries/concurrentqueue.h:2423-2429 | a new producer is empty, also when its index could not be allocated |
| `ImplicitProducers.ImplicitProducer.NewBlockIndex` | src/misc/libraries/concurrentqueue.h:2966-3008 | the index doubles, and represents the same blocks |
| `ImplicitProducers.ImplicitProducer.RequisitionBlock` | src/misc/libraries/concurrentqueue.h:3096-3115 | a block that no one owns, from the pool or newly made; none if and only if the pool is empty and nothing may be made |
| `ImplicitProducers.ImplicitProducer.InsertBlockIndexEntry` | src/misc/libraries/concurrentqueue.h:2901-2933 | keys the entry behind the tail if it is free or the index may grow, and otherwise changes nothing at all |
| `ImplicitProducers.ImplicitProducer.RewindBlockIndexTail` | src/misc/libraries/concurrentqueue.h:2509-2513 | takes the tail back without disturbing a lookup |
| `ImplicitProducers.ImplicitProducer.EnterBlock` | src/misc/libraries/concurrentqueue.h:2517-2535 | the new block is reset, entered, and becomes the tail block |
| `ImplicitProducers.ImplicitProducer.StartBlock` | src/misc/libraries/concurrentqueue.h:2491-2535 | at the end of a block: ready to write, or refused with the queue as it was |
| `ImplicitProducers.ImplicitProducer.WriteElement` | src/misc/libraries/concurrentqueue.h:2543-2547 | the element is in its slot and the tail has moved |
| `ImplicitProducers.ImplicitProducer.Enqueue` | src/misc/libraries/concurrentqueue.h:2487-2548 | appends the element, or refuses it and leaves the sequence unchanged; refuses exactly at a block end, when the queue is too long or there is no entry or no block |
| `ImplicitProducers.ImplicitProducer.Claim` | src/misc/libraries/concurrentqueue.h:2562 | the next index |
| `ImplicitProducers.ImplicitProducer.Take` | src/misc/libraries/concurrentqueue.h:2565-2611 | returns the element enqueued at the claimed index, in whatever order claims are served; the block goes back to the pool exactly when all its elements are taken |
| `ImplicitProducers.ImplicitProducer.SetEmpty` | src/misc/libraries/concurrentqueue.h:1597-1613 | counts the element, and releases the block at the last one |
| `BlockReaders.TailIsLater` | src/misc/libraries/concurrentqueue.h:2954-2955 | the tail a dequeuer reads, of whatever version of the index and however late, is the slot of its block or a later one |
| `BlockReaders.KeyLeadsHome` | src/misc/libraries/concurrentqueue.h:2956-2962 | and the key it reads there afterwards leads to the entry of its own block, whatever was entered, rewound or replaced in between |
| `BlockReaders.OthersElsewhere` | src/misc/libraries/concurrentqueue.h:2599-2608 | of a block whose last element was counted only the dequeuer that counted it is left |
| `BlockReaders.ConsumeKeeps` | src/misc/libraries/concurrentqueue.h:2565-2611 | each access of a dequeuer after its claim refers to something that is there, and keeps entries, blocks, owners and deliveries in step |
| `BlockWriters.FreeIsNew` | src/misc/libraries/concurrentqueue.h:2905-2912 | a free entry behind the tail is that of no block still in the index, and the index is not overrun |
| `BlockWriters.LargerCovers` | src/misc/libraries/concurrentqueue.h:2982-3001 | a larger version of the index leads to the same entries |
| `QueueRaces.StepKeeps` | src/misc/libraries/concurrentqueue.h:2487-2615 | no access of enqueuer or dequeuers refers to what is not there, and every one keeps the invariant |
| `QueueRaces.RunKeeps` | src/misc/libraries/concurrentqueue.h:2487-2615 | nor does any interleaving of claims, look-ups, releases, entries, rewinds and growths of the index |
| `QueueRaces.AccessesAreSafe` | src/misc/libraries/concurrentqueue.h:2953-2962 | whatever is going on, the key, the block and the element that a thread is about to use exist |
| `QueueRaces.EachElementOnce` | src/misc/libraries/concurrentqueue.h:2551-2615 | what dequeuers have moved out is what was enqueued at the indices they claimed, and no index is delivered twice |
| `QueueRaces.NoElementIsLost` | src/misc/libraries/concurrentqueue.h:2551-2615 | when no dequeuer is on its way, exactly the indices claimed so far have been delivered |
| `QueueRaces.NoBlockIsLost` | src/misc/libraries/concurrentqueue.h:2599-2608 | when no one is at work every block is either in the pool or that of one number with elements still to be taken, and every such number has its entry, with its base and its block, in the current index |
| `QueueRaces.ShortRunsNeverLap` | src/misc/libraries/concurrentqueue.h:477-483 | runs of fewer than 2^63 steps lap nobody |
| `QueueProgress.EnqueueEnds` | src/misc/libraries/concurrentqueue.h:2487-2548 | whatever the dequeuers do meanwhile, an enqueue is over after nine accesses of its own at most, and has then published its element, and nothing else, if and only if it was not refused: not turned away by the guard against too long a queue, nor by a full index or an empty pool when there was no memory for more |
| `QueueProgress.DequeueEnds` | src/misc/libraries/concurrentqueue.h:2551-2615 | whatever the others do meanwhile, a dequeue is over after fourteen accesses of its own at most, and then every index its thread has claimed has been delivered |
| `WordLookUps.WordPositionAgrees` | src/misc/libraries/concurrentqueue.h:2953-2961 | the look-up on 64-bit words, with its signed division and mask, leads to the slot that the true counts lead to, if key and index are less than half the range apart |
| `WordLookUps.WordsLeadHome` | src/misc/libraries/concurrentqueue.h:2953-2961 | and in every run of fewer than 2^63 steps they are |
| `ImplicitProducers.ImplicitProducer.Dequeue` | src/misc/libraries/concurrentqueue.h:2551-2615 | undisturbed: the oldest element, or none if and only if the queue is empty |
| `RingBuffers.SizeFromSlots` | src/misc/RingBuffer.h:105-110 | the size computed from the two slots is the number of items |
| `RingBuffers.RingBuffer.constructor` | src/misc/RingBuffer.h:28-128 | a new buffer is empty |
| `RingBuffers.RingBuffer.Enqueue` | src/misc/RingBuffer.h:41-89 | appends the item unless capacity items are inside, and then changes nothing |
| `RingBuffers.RingBuffer.Dequeue` | src/misc/RingBuffer.h:91-103 | removes and returns the oldest item unless empty, and then changes nothing |
| `RingBuffers.RingBuffer.GetSize` | src/misc/RingBuffer.h:105-110 | the number of items, at most the capacity |
| `RingBufferRuns.StepRefines` | src/misc/RingBuffer.h:41-103 | each load, comparison, copied word or store is nothing, one enqueue or one dequeue of an abstract queue |
| `RingBufferRuns.RunKeeps` | src/misc/RingBuffer.h:41-103 | every interleaving of producer and consumer keeps the invariant |
| `RingBufferRuns.IsAQueue` | src/misc/RingBuffer.h:41-103 | what was dequeued, then what is inside, is what was enqueued; never more than capacity inside |
| `RingBufferRuns.EnqueueFailsIffFull` | src/misc/RingBuffer.h:68-71 | Enqueue gives up if and only if the queue is full at its load of tail |
| `RingBufferRuns.DequeueFailsIffEmpty` | src/misc/RingBuffer.h:95-97 | Dequeue gives up if and only if the queue is empty at its load of head |
| `RingBufferRuns.NeverTheSameSlot` | src/misc/RingBuffer.h:73-99 | the slot being written is never the one being read and never holds an unread item |
| `RingBufferRuns.EnqueueEnds` | src/misc/RingBuffer.h:41-89 | whatever the consumer does, Enqueue is over after three steps and one for each word, and has then put its item in, and nothing else, if and only if it did not find the buffer full |
| `RingBufferRuns.DequeueEnds` | src/misc/RingBuffer.h:91-103 | whatever the producer does, Dequeue is over after as many, and has then taken one item out if and only if it did not find the buffer empty |
| `Framing.ParseUpToKeepsBytes` | src/misc/TcpSocket/TcpSocketBase.cpp:122-148 | for any bytes and any room in the queue: frames taken, then leftover, are the bytes |
| `Framing.ParseAfterFull` | src/misc/TcpSocket/TcpSocketBase.cpp:134-137 | a refusal only postpones: parsing the leftover gives the rest |
| `Framing.ParseInParts` | src/misc/TcpSocket/TcpSocketBase.cpp:142-147 | parsing a part and going on with more bytes behind the leftover is parsing the whole |
| `Framing.RoundTrip` | src/misc/TcpSocket/TcpSocketBase.cpp:93-148 | what the parser makes of printed messages: all of them, but for an empty last one |
| `Framing.RoundTripIff` | src/misc/TcpSocket/TcpSocketBase.cpp:93-148 | sent and delivered are the same if and only if the last message is not empty |
| `Framing.EmptyMessageIsStuck` | src/misc/TcpSocket/TcpSocketBase.cpp:125 | an empty last message waits in the buffer until something follows it |
| `Framing.WireIsInjective` | src/misc/TcpSocket/TcpSocketBase.cpp:101-106 | different message sequences differ on the wire |
| `Framing.FrameIsLengthFirst` | src/misc/TcpSocket/TcpSocketBase.cpp:93-106 | a frame is two bytes and the message; low byte first, the two are its length if and only if that is less than 2^16 |
| `Framing.NothingIsLost` | src/misc/TcpSocket/TcpSocketBase.cpp:122-148 | over any chunks and refusals: frames delivered, then the buffer, are the bytes received |
| `Framing.ChunksOnlyDelay` | src/misc/TcpSocket/TcpSocketBase.cpp:122-148 | delivered so far and still to parse make up the parse of the whole stream |
| `Framing.ChunkingIsInvisible` | src/misc/TcpSocket/TcpSocketBase.cpp:122-148 | without refusals the result does not depend on the chunks |
| `Framing.EndToEnd` | src/misc/TcpSocket/TcpSocketBase.cpp:93-148 | through any chunking every message arrives unchanged and in order, with nothing left, if and only if the last one is not empty |
| `Framing.DeliveredInOrder` | src/misc/TcpSocket/TcpSocketBase.cpp:122-148 | at any moment, also under refusals, the messages delivered are the first of those sent |
| `SockMsgs.SeqNumIncreasesIff` | src/misc/TcpSocket/TcpSocketBase.cpp:133 | a sequence number is larger than the one before except where an int ends |
| `SockMsgs.NumbersIncrease` | src/misc/TcpSocket/TcpSocketBase.cpp:122-148 | however the turns of all connections interleave, and whatever is refused on the way, sequence numbers strictly increase along the queue while there were at most 2^31 attempts |
| `SockMsgs.ConnectionsAreApart` | src/misc/TcpSocket/TcpServerSocket.cpp:172-175 | the messages of a descriptor, read off the common queue, are what the connections that were on it one after the other deliver, each from its own chunks as if it were alone |
| `SockMsgs.NumbersKeepEachOrder` | src/misc/TcpSocket/TcpSocketBase.cpp:122-148 | so by increasing number they are always the first messages that the peer of its first connection sent, then the first that the next one's sent, and so on |
| `TcpSockets.TcpSocket.GetNextMessage` | src/misc/TcpSocket/TcpSocketBase.cpp:39-46 | some message leaves the queue, and the numbers of the others still increase |
| `TcpSockets.TcpSocket.ParseSuperBuffer` | src/misc/TcpSocket/TcpSocketBase.cpp:122-148 | the loop with its in-place shift computes the specified parse, numbers the messages, uses up a number for a refused one, and keeps the numbers increasing |
| `TcpSockets.TcpSocket.TakeChunk` | src/misc/TcpSocket/TcpServerSocket.cpp:172-175 | one turn of a connection: appending received bytes and parsing delivers what the chunk completes, and keeps the numbers increasing |
| `TcpSockets.TcpSocket.HandleClientUpdate` | src/misc/TcpSocket/TcpServerSocket.cpp:154-183 | at most ten receives, until the buffer is empty; re-armed, also after an error when the server is closed, or ended by a hang-up or another error; all received chunks are accounted for |
| `TcpSockets.SendMessage` | src/misc/TcpSocket/TcpSocketBase.cpp:93-119 | ends for any partial writes; true if and only if the whole frame was written, and otherwise a write failed or the message was too big |
| `OneShot.StepKeeps` | src/misc/TcpSocket/TcpServerSocket.cpp:129-150 | every step of epoll, kernel and handlers keeps at most one handler, and every byte accounted for |
| `OneShot.AtMostOneHandler` | src/misc/TcpSocket/TcpServerSocket.cpp:133-137 | a descriptor never has two handlers at once, nor one while it is armed |
| `OneShot.EveryByteInOrder` | src/misc/TcpSocket/TcpServerSocket.cpp:160-182 | messages, buffer, bytes in a handler's hand and bytes in the kernel are, in this order, what arrived |
| `OneShot.DeliveredIsPrefixOfSent` | src/misc/TcpSocket/TcpServerSocket.cpp:186-219 | whichever threads handle a connection, it delivers a prefix of what the peer sent |
| `OneShot.ArmedIff` | src/misc/TcpSocket/TcpServerSocket.cpp:129-150 | in every run in which no hang-up or error has stopped the connection, its descriptor is armed if and only if no handler is at work |
| `OneShot.EverythingIsRead` | src/misc/TcpSocket/TcpServerSocket.cpp:158-182 | from every moment of such a run its handlers by themselves can empty the kernel's buffer, and then every message that has arrived as a whole is delivered if the queue has room, unless all had been read before and one was refused |
| `OneShot.EveryMessageIsDelivered` | src/misc/TcpSocket/TcpServerSocket.cpp:158-182 | so, if the peer sent whole messages, all of them are delivered but for an empty last one |
| `OneShot.RefusedWaits` | src/misc/TcpSocket/TcpServerSocket.cpp:158-182 | but a message that was refused when all else was read is not tried again, whatever epoll reports, until more bytes arrive |
| `OneShot.StoppedForGood` | src/misc/TcpSocket/TcpServerSocket.cpp:158-182 | and of a connection that was stopped nothing is ever read again |
| `OneShot.HandlersAreShort` | src/misc/TcpSocket/TcpServerSocket.cpp:160-164 | no handler receives more than ten times |
| `OneShot.StopsReceivingIff` | src/misc/TcpSocket/TcpServerSocket.cpp:164-182 | after a receive it goes to arm the descriptor if and only if the buffer is empty or that was the tenth |
| `OrderIds.Unpacks` | src/core/Utils/OrderUtils.h:26-37 | a packed order id gives back the session and the low 48 bits of the number |
| `OrderIds.Repacks` | src/core/Utils/ExchangeUtils.h:8-24 | every 64-bit id is the packing of its parts |
| `OrderIds.SameIdIff` | src/core/Utils/OrderUtils.h:26-37 | two ids are equal if and only if sessions and low 48 bits are |
| `OrderIds.SessionIdsRepeat` | src/core/ExchangeServer.cpp:270 | two connections get the same session id if and only if their numbers differ by a multiple of 2^16 |
| `ExchangeServers.ValidateOrderData` | src/core/ExchangeServer.cpp:432-483 | no complaint if and only if the exchange is open, the instrument is traded, and type, price and quantity are in range; and each complaint if and only if the request deserves it: what it names is wrong, in terms of the limits, and all that is looked at before is right |
| `ExchangeServers.ConnectedOneToOne` | src/core/ExchangeServer.cpp:270-271 | a new session keeps the map one-to-one |
| `ExchangeServers.DisconnectedOneToOne` | src/core/ExchangeServer.cpp:283-284 | so does the end of one |
| `ExchangeServers.LookupsAgree` | src/core/ExchangeServer.cpp:290-313 | a descriptor has the session of an order if and only if messages about the order go to it |
| `ExchangeServers.ConnectedIff` | src/core/ExchangeServer.cpp:267-271 | a connection gets its session if and only if descriptor and session id are both free (or already paired) |
| `ExchangeServers.ExchangeServer.OnNewCxn` | src/core/ExchangeServer.cpp:267-275 | the bimap's insertion, which refuses a pair with either half taken; one-to-one afterwards |
| `ExchangeServers.ExchangeServer.OnBrokerDiscxn` | src/core/ExchangeServer.cpp:278-287 | the session ends; throws if and only if there was none; one-to-one afterwards |
| `ExchangeServers.ExchangeServer.EnqueueNotification` | src/core/ExchangeServer.cpp:193-216 | a message about an order is for the one descriptor whose session the id names, and is dropped if and only if there is none |
| `ExchangeServers.ExchangeServer.ProcessSockMsg` | src/core/ExchangeServer.cpp:395-427 | one broker message: ignored without a session; the sender of an order is told exactly one thing, on its own descriptor, the complaint that the order deserves, or an id that unpacks to its own session and the next number; at most one message is forwarded, marked with that session; sessions stay one-to-one |
| `Exchanges.SubmitIds` | src/core/MatchingEngine.cpp:218-398 | a match brings no stranger into the book or into its events |
| `Exchanges.OrderMatchedFits` | src/core/Exchange.cpp:245-253 | an engine's step keeps every order in the engine the lookup map names |
| `Exchanges.RestsOnlyWhereLookedUp` | src/core/Exchange.cpp:252 | an order rests in no engine but the one the lookup map names |
| `Exchanges.CancelIsExact` | src/core/Exchange.cpp:290-305 | a cancel is answered with success if and only if the order rests somewhere at that moment; it is gone then, and nothing else has changed in any engine |
| `Exchanges.Exchange.constructor` | src/core/Exchange.cpp:105-115 | one engine for each instrument, with nothing in it, and an empty lookup map |
| `Exchanges.Exchange.GiveToMatchingEngine` | src/core/Exchange.cpp:245-253 | ends the exchange if and only if there is no engine, or its queue refuses the order while logging is on; otherwise the order is looked up at its engine and waits last there and nowhere else, or nowhere if it was refused, and no book has changed |
| `Exchanges.Exchange.HandleIncomingOrderRequest` | src/core/Exchange.cpp:266-287 | announced Accepted and given to its engine; no order for an unknown price type; ends the exchange if and only if there is an order without an engine, or refused while logging is on, and then the announcement is all that is left of it |
| `Exchanges.Exchange.HandleIncomingCancelOrder` | src/core/Exchange.cpp:290-305 | the cancel, its answer, and the agreement of lookup map and books |
| `Exchanges.Exchange.ProcessMatchingEngineFill` | src/core/Exchange.cpp:152-175 | one event of an engine: what `FillReported` makes of it, a fill if something was traded and a status if it is flagged; that the notices say what was traded and what is left is `MarketNotices.EveryFillIsTold` |
| `Routing.RunKeeps` | src/core/ExchangeServer.cpp:267-427 | over any run of brokers, gateway, exchange and engines: sessions, ids, queues and books fit together |
| `Routing.SessionsStayOneToOne` | src/core/ExchangeServer.cpp:267-287 | the session map is one-to-one in every reachable state, without any bound |
| `Routing.SessionsAreOfHolders` | src/core/ExchangeServer.cpp:267-313 | with fewer than 2^16 connections a descriptor has the session of the connection it was registered for, and none after that has ended |
| `Routing.EveryConnectionHasItsSession` | src/misc/TcpSocket/TcpServerSocket.cpp:223-249 | with fewer than 2^16 connections every descriptor has the session of the live connection on it, once registered, and no other descriptor has one, if and only if no hang-up was noticed between a connection's arming and its registration |
| `Routing.SessionStrays` | src/misc/TcpSocket/TcpServerSocket.cpp:223-249 | a run in which it was: the session stays on the dead descriptor |
| `Routing.StraysStay` | src/core/ExchangeServer.cpp:278-287 | such a session is never removed, whatever follows |
| `Routing.OrderIdsAreNew` | src/core/ExchangeServer.cpp:413-414 | an accepted order's id was never given out before and unpacks to the sender's session |
| `Routing.MessagesGoHome` | src/core/ExchangeServer.cpp:193-216 | with fewer than 2^16 connections a message about an order goes to a descriptor if and only if that is registered for the connection that placed the order, as it is if that connection is live |
| `Routing.MessagesGoToCongruent` | src/core/ExchangeServer.cpp:301-313 | without that bound, if and only if the two connections' numbers differ by a multiple of 2^16 |
| `Deliveries.MessagesReachOwners` | src/core/ExchangeServer.cpp:193-216 | every message ever queued for a broker about an order was queued while its descriptor was registered for a connection whose number is that of the placing one up to multiples of 2^16 |
| `Deliveries.MessagesReachTheirOwner` | src/core/ExchangeServer.cpp:193-216 | with fewer than 2^16 connections it was the placing connection itself, at every moment of the run |
| `Deliveries.MessageGoesAstray` | src/core/ExchangeServer.cpp:267-313 | a run, every connection on a descriptor of its own, in which connection 2^16 + 1 is told about an order of connection 1, which is long gone |
| `Routing.NoticesAreOfOwnedOrders` | src/core/Exchange.cpp:152-175 | every notice of the exchange is about an order that a connection placed |
| `Routing.CancelIsMarked` | src/core/ExchangeServer.cpp:423-426 | a cancel is forwarded with the session of the connection that asked for it |
| `Routing.CancelRemovesOnlyCongruent` | src/core/Exchange.cpp:290-305 | a cancel removes only the order it names, and only if the connection that placed it has the asking one's number up to multiples of 2^16 |
| `Routing.CancelRemovesOnlyOwn` | src/core/Exchange.cpp:290-305 | with fewer than 2^16 connections, only if the asking connection placed it |
| `Routing.ExchangeGoesOn` | src/core/Exchange.cpp:245-253 | what the exchange dequeues ends it if and only if it is an order that its engine's queue refuses while logging is on: every order that passes the gateway can be made and has an engine |
| `Markets.AcceptedBecomesOrder` | src/core/Exchange.cpp:178-197 | what an accepted request becomes: an order of its side, type, price and quantity, with its sender's session, and with a level if it has a limit |
| `Markets.StepFollows` | src/core/Exchange.cpp:213-243 | every step of the market takes each engine where the requests that reached it take a single engine |
| `Markets.RunFollows` | src/core/Exchange.cpp:213-305 | over any run, each engine's book and events are those of the orders and cancels that reached it, in order |
| `MarketIntake.MessagesInOrder` | src/core/ExchangeServer.cpp:362-427 | at every moment of every run: what the exchange has dequeued, and then what waits for it, is what the gateway sent, the accepted orders with their new ids and the cancels with their sessions, once each and in the order in which brokers' messages were taken |
| `MarketIntake.OrdersInTurn` | src/core/Exchange.cpp:245-253 | and at each engine the orders matched, and then those waiting, are those it was given, once each and in the order in which the exchange dequeued them |
| `Markets.NoBookIsCrossed` | src/core/Exchange.cpp:245-253 | in every reachable state of the market no book is crossed, apart from orders of one session when self-trades are prevented |
| `Markets.EveryEngineConserves` | src/core/Exchange.cpp:152-175 | quantity is conserved at every engine, over the events reported and those still waiting |
| `Markets.EveryHistoryIsLegal` | src/core/Exchange.cpp:152-175 | the status histories at every engine are legal at every moment if and only if every order for nothing that reached it missed |
| `MarketNotices.RunTells` | src/core/Exchange.cpp:152-175 | over any run of the market, of every order of an engine exactly the fills have been told that its engine has reported, one by one, and last the status that was last reported as changed |
| `MarketNotices.EveryFillIsTold` | src/core/Exchange.cpp:25-33 | of every order: the fills told, each with its quantity, its price and the quantity left, and then those still waiting, are all that its engine made, in order; and in every fill told the quantity left is the order's less all quantities told up to it |
| `MarketNotices.NoticesAddUp` | src/core/Exchange.cpp:152-175 | for each resting order, the quantities told, the fills still waiting and what it has left are its quantity |
| `MarketNotices.FilledOrdersAreTold` | src/core/Exchange.cpp:152-175 | for each limit order that neither rests nor was cancelled, the quantities told and the fills still waiting are its quantity |
| `MarketNotices.LastStatusIsTold` | src/core/Exchange.cpp:16-22 | if every order for nothing missed, the last status told of an order is the last one its engine has reported, and, once nothing waits, the one it rests with |
| `Routing.RestsInOneEngine` | src/core/Exchange.cpp:245-253 | an order rests in at most one engine |

## Left out

- EngineStatus.HistoriesAreLegal: for runs in which order ids are not used twice, which `Routing.OrderIdsAreNew` shows of the gateway.
- EngineRuns.QuantityIsConserved: for runs in which order ids are not used twice, which `Routing.OrderIdsAreNew` shows of the gateway.
- FreeLists.RunKeeps: for fewer than 2^31 - 1 threads, since more could overflow the reference count into its flag.
- DequeueClaims.RunKeeps: for runs in which no comparison is between counts half a range apart; `DequeueClaims.ShortRunsNeverLap` shows that fewer than 2^63 steps are always enough.
- ImplicitProducers.ImplicitProducer.Take: look-up, move, count and release are one step here; their single accesses, under all interleavings, are in `QueueRaces`.
- ImplicitProducers.ImplicitProducer.Enqueue: one step here, for the same reason.
- QueueRaces.RunKeeps: for a producer whose first index could be allocated, and for runs that lap nobody; taking a block from the pool and giving it back is one step here, and its accesses are in `FreeLists`; the arithmetic of the look-up is on counts, and `WordLookUps` shows when that on words agrees.
- Routing.MessagesGoHome: for fewer than 2^16 connections and 2^32 orders, beyond which numbers repeat.
- Routing.RunKeeps: a broker's message is taken to come from the connection now on its descriptor; the server never closes a descriptor, so the operating system does not hand it out again.
- WordLookUps.WordsLeadHome: for block sizes and index capacities that divide 2^64, as powers of two do; that the capacities are such is not shown.
- Exceptions in the handlers of connections, which the code catches and logs: they are steps that change nothing.
- Rounding of prices in floating point: prices are reals, so a price that is not a number, which passes the three comparisons of the validation, is left out of `Ticks.ValidPricesHaveLevels` and of everything else.
- The conversion of the marker for no best price to an unsigned index, which C++ leaves undefined: there is no level to scan then.
- MarketNotices.RunTells: of the notices handed to the queue to the gateway, which ignores one that finds it full.
- Full event queues: the engine's attempts to queue an event are taken to succeed.
- A cancel or a clear during a match: the code takes no lock between them, and the model takes each request as one step.
- Requests after a clear: the code leaves the index and the cached prices as they were, so a clear is the last step.
- Each engine inside `Exchanges` is kept by its specification (flat book, waiting orders, waiting events), not as an object of the class in `MatchingEngine`.
- The order of messages in the queue from the exchange to the gateway, which two threads write: a notice may be delivered at any time.
- The order of acknowledgements and status updates at a broker, which the code does not promise.
- Weak memory orders: every access is sequentially consistent.
- Explicit producers, tokens, bulk operations, exceptions and thread exit in the queue, and the choice of a producer by thread id.
- Wrap-around of the counters of `ImplicitProducer`, but for its guard against a queue that is too long.
- The size of the ring buffer read by a third thread, which may see head and tail of different moments.
- Ring buffers so large that a slot number does not fit an int.
- Messages longer than 1024 bytes from a peer that does not use the same printer: they would not fit the fixed message buffer.
- The client's socket, which keeps its leftover bytes across a reconnection.
- Sockets, epoll, shared memory and protobuf themselves; symbols, logging, colours and the printed book.
