# A verified model of the matching engine

This Dafny project models a two-processor order matching engine written in C and proves what
its parts promise: the limit order book, the multi-symbol engine above it, the lock-free queue
between threads, the TCP framing, the client registry and the symbol router.

## How the project is built

**Two layers.** `PriceTime` is the specification of one book: each side is a sequence of resting
orders, best price first and oldest first within a price, and every operation is a small
recursive function on such sequences. The array-based book (`OrderPool`, `ProbeTable`,
`PriceLevels`, `OrderBook`, `Matching`, `BookOps`, `Cancelling`, `ClientCancel`, `Flushing`)
keeps the source's structures: a fixed pool of 8192 orders with a free list, two sorted arrays of
at most 512 price levels, a doubly linked list per level, an open-addressing order map with
tombstones, cached tops of book, a flush cursor and a bounded output buffer. Orders refer to each
other by pool index. Each method is proved to change the abstract value `V()` exactly as the
specification function says, and to send exactly its messages (`Keep` cuts them at the 8192
messages the buffer holds).

**Why the layers fit.** `BookState.Coherent` is the representation invariant on plain values: the
pool, the lists, the levels and the map agree. The lemmas `RemovedCoherent`, `ReducedCoherent`,
`AppendedCoherent`, `OpenedCoherent` and `DroppedCoherent` say what each primitive step does to it,
and the methods only carry out those steps. `BookLaws`, `BookHistory`, `BookMsgs`, `Ledger`,
`OrderLedger`, `MatchLaws` and `ClientCancelLaws` then prove what every run of the specification
guarantees, and `BookRuns` carries runs over to the arrays. `Answers` says in plain numbers and
message fields what the operations answer and leave behind, without the functions that compute it,
and `FreshIds` that callers who never use an order id twice meet what the runs ask of their orders.

**The engine.** `Engine` adds the symbol table, the order-to-symbol map and the pool shared by all
books. Its invariant says that the free list and the orders linked in each book partition the
pool. `EngineOps`, `FlushRounds`, `FlushOrder` and `EngineFlush` prove the engine's operations against the
abstract engine, `EngineLaws` proves what holds over runs of it, `EngineRuns` carries runs over to
the engine object, and `EngineSplit` compares two engines behind the router with a single one.

**Between threads.** `SpscQueue` is a state machine of atomic steps with stale views.
`ClientRegistry` gives every locked section of the registry as a method, and `RegistryRuns` runs
those sections in any order, for any number of threads.

**Widths and constants.** Quantities, prices and ids are 32-bit; a level's total is the sum of its
orders' quantities modulo 2^32. Order keys are 64-bit. The capacities are the source's: pool 8192,
512 levels, 16384 map slots, 128 probes, 200 orders per inner pass, 10240 outer passes, 8192
output messages, 4096 acknowledgements per flush call, 64 symbols in 512 slots, a queue of 65536
slots, frames of at most 4096 bytes in a buffer of 4356. Hash functions are arbitrary functions
into the table, so nothing depends on their quality.

**What the source demands of its callers** is stated as preconditions. From its assertions come: a
positive quantity; a key that is neither 0 nor all ones; room for a new price level; an order map
insertion that succeeds (`BookOps.Fits`, needed only if the order has to rest, and asked for after
the orders it fills have left the map); no single list as long as the pool when it is freed;
symbols of at most 15 characters; some book for an order of the empty symbol. Three are
assumptions that the source does not check: the key of an order that comes to rest is not resting
once it has matched (`BookState.AppendedCoherent` says that the book stays coherent if and only if
it is not, and `MatchLaws.NewStaysNew` that a key which is new before the match will do); a key that
is tracked already has no tombstone before its slot, so that it is replaced in the key map and not
stored twice (`ProbeTable.Reinsert`); and nothing else happens to a book between the calls of an
unfinished flush.

**Results that contradict a comment or an expectation**, each with an input and the exact
condition:

1. The queue's self-check calls "more dequeues than enqueues" impossible;
   `SpscQueue.DequeuesOvertake` reaches it. `SpscQueue.QueueSafe`, `SpscQueue.ReadsApart` and
   `SpscQueue.OwnThreadChecks` say exactly when, also if the values are read at different moments.
2. A client cancel looks at 200 orders per level: `ClientCancelLaws.CrowdSurvives` and
   `ClientCancelLaws.ClientCancelExact`.
3. A cancel need not reach the book of its order: the key map keeps 14 characters of a symbol and
   takes no key whose probe window is full, and an empty symbol may be found no more.
   `EngineLaws.CancelMisses`, `EngineLaws.EngineCancel`.
4. A new order whose symbol does not start with a letter goes to both processors and is answered
   twice: `EngineSplit.BothAnswer` and `EngineSplit.TwoEnginesEqualOne`.
5. An id lookup probes 256 slots and an insertion the whole table: `ClientRegistry.CrowdedOut` and
   `ClientRegistry.FoundIffNear`.
6. An order of the empty symbol trades in the book of the symbol that came first:
   `EngineLaws.EmptySymbolTrades`, `SymbolTable.EmptyIsFound` and `EngineOps.GetBook`.
7. A flush of the whole engine can lose messages, but only in its first round:
   `FlushRounds.FlushLoses` and `FlushRounds.DeliveredIff`.
8. Inserting a key that a table stores already can store it twice: `ProbeTable.StoredTwice` and
   `ProbeTable.Reinsert`.
9. A cancel is routed by the symbol it carries, which the engine ignores: `EngineSplit.Misrouted`
   and `EngineSplit.CancelRouted`. Both parsers leave that symbol empty, so every cancel goes to both
   processors, and one of them answers it in the name of the symbol "UNKNOWN":
   `EngineSplit.UnknownAnswers`.
10. A single order or client cancel can overfill the output buffer: `BookMsgs.AddFits` and
    `BookMsgs.ClientCancelFits`.

## Model

| member | source | states |
|---|---|---|
| `OrderBook.OutputBuffer.Add` | include/core/order_book.h:351-360 | a message is appended, or dropped exactly when 8192 are held |
| `OrderPool.Pool.Alloc` | src/core/order_book.c:75-104 | the most recently freed index leaves the free list, or NIL exactly when none is free |
| `OrderPool.Pool.Free` | src/core/order_book.c:110-127 | an index not free is pushed; the free list stays duplicate-free, so it cannot overflow |
| `OrderPool.UnlinkChain` | src/core/order_book.c:295-318 | unlinking any element of a well-formed doubly linked list leaves the well-formed list without it, with the head and tail the source computes |
| `OrderPool.AppendChain` | src/core/order_book.c:271-290 | appending keeps the list well-formed both ways and touches no order outside it |
| `OrderPool.FreeAll` | src/core/order_book.c:323-340 | every order of a list goes back to the pool once, in list order |
| `OrderBook.ListRemove` | src/core/order_book.c:295-318 | the level's list loses the order; only its neighbours' links change |
| `OrderBook.ListAppend` | src/core/order_book.c:271-290 | the level's list ends with the order |
| `OrderBook.RemoveLevel` | src/core/order_book.c:437-457 | the level is dropped and the levels behind it move up |
| `PriceLevels.BookSide.Find` | src/core/order_book.c:350-386 | binary search finds the level of a price, and -1 means that no level has it |
| `PriceLevels.BookSide.Insert` | src/core/order_book.c:392-432 | an empty level is inserted, everything else keeps its order, and the levels stay strictly sorted |
| `PriceLevels.FlatDistinct` | src/core/order_book.c:271-457 | in a well-formed side no order is linked twice, within a level or across levels |
| `ProbeTable.ProbeIsRemainder` | src/core/order_book.c:168-186 | for every hash and step the model's wrapped slot is the sum modulo the table size, which is the mask of the source |
| `ProbeTable.FindIsMap` | src/core/order_book.c:200-229 | for any hash and any tombstones, a lookup agrees with the abstract finite map |
| `ProbeTable.FreeIffRoom` | src/core/order_book.c:157-194 | inserting an absent key succeeds exactly when its probe window holds an empty slot or a tombstone |
| `ProbeTable.InsertThenFind` | src/core/order_book.c:157-229 | in any table, even one that already stores the key, what a successful insert wrote is what the next lookup finds |
| `ProbeTable.ModelsInsert` | src/core/order_book.c:172-186 | writing into the first unused slot of the window adds one entry to the abstract map |
| `ProbeTable.Reinsert` | src/core/order_book.c:172-186 | inserting a stored key leaves a table that stands for a map if and only if no tombstone stands before the key on its probe path |
| `ProbeTable.StoredTwice` | src/core/order_book.c:172-186 | a table with a tombstone before a stored key, which an insertion of that key stores twice |
| `ProbeTable.ModelsRemove` | src/core/order_book.c:235-249 | a tombstone removes one entry and breaks no other key's probe path |
| `ProbeTable.ProbeMap.Find` | src/core/order_book.c:200-229 | the loop returns the key's slot, and -1 exactly when the key is absent |
| `ProbeTable.ProbeMap.Insert` | src/core/order_book.c:157-194 | the new table in every case, success exactly with room, and for an absent key the updated map with both counters |
| `ProbeTable.ProbeMap.Remove` | src/core/order_book.c:235-249 | the map loses the key, the slot becomes a tombstone, count and tombstone count follow |
| `BookState.RemovedCoherent` | src/core/order_book.c:529-537 | unlinking a resting order, forgetting its key and freeing it keeps pool, lists, levels and map in agreement |
| `BookState.ReducedCoherent` | src/core/order_book.c:524-527 | reducing a resting order and its level's total keeps them in agreement |
| `BookState.AppendedCoherent` | src/core/order_book.c:710-731 | linking an order at the end of its level and recording its key keeps pool, lists, levels and map in agreement if and only if the key is not live |
| `BookState.OpenedCoherent` | src/core/order_book.c:392-432 | opening an empty level keeps them in agreement and moves no order |
| `BookState.DroppedCoherent` | src/core/order_book.c:437-457 | dropping an empty level keeps them in agreement and moves no order |
| `Matching.TradedCoherent` | src/core/order_book.c:467-540 | one trade against the oldest order of the best level keeps the whole representation coherent, filled or not |
| `Matching.TradedView` | src/core/order_book.c:467-540 | on the flattened side one trade takes the smaller quantity from the first order and removes it exactly when it is filled |
| `Matching.ExecuteTrade` | src/core/order_book.c:467-540 | the method performs that trade on pool, list, level total and map, and sends one trade message at the resting price |
| `Matching.MatchLevel` | src/core/order_book.c:580-597 | the inner loop of at most 200 orders keeps the match on the greedy path and either removes an order or fills the incoming one |
| `Matching.MatchPass` | src/core/order_book.c:561-608 | one outer pass does the same and leaves no empty level |
| `Matching.MatchOrder` | src/core/order_book.c:550-701 | the nested capped loops emit exactly the trades, the remainder and the residual side of the recursive price-then-time match; neither cap cuts it short, and at most 8192 outer passes are made |
| `Matching.FlatBound` | include/core/order_book.h:73-77 | while an order is in hand at most 8191 orders rest, so the outer cap is never reached |
| `MatchLaws.MatchIsGreedy` | src/core/order_book.c:550-678 | the match fills a longest affordable crossing prefix completely and in order, then at most one order partly; `Answers.TradeSays` says at what prices and for whom |
| `Answers.TradeSays` | src/core/order_book.c:467-540 | trade number i is with opposing order number i, at that order's price, in the book's symbol; buyer and seller carry the user, order and client ids of the incoming order on its side and of the resting one on the other; all but the last trade take the whole order |
| `Answers.TradeWithinLimit` | src/core/order_book.c:613-678 | a limit buy never trades above its price, a limit sell never below |
| `Answers.TradesAllItCan` | src/core/order_book.c:550-701 | whatever is left of an order has no opposing order left, or the best opposing price is beyond its limit; a market order has no limit |
| `MatchLaws.GreedyUnique` | src/core/order_book.c:550-678 | a result is a greedy price-time allocation if and only if it is the one computed |
| `MatchLaws.MatchConserves` | src/core/order_book.c:482-527 | traded quantity leaves the incoming order and the opposite side alike |
| `MatchLaws.MatchLeaves` | src/core/order_book.c:467-701 | what is left is a suffix of the side, its first order perhaps reduced |
| `MatchLaws.NewStaysNew` | src/core/order_book.c:906-922 | a key that does not rest before the match does not rest after it, so it may come to rest |
| `BookOps.BestIs` | src/core/order_book.c:766-790 | the first level's price and total are the best price and the wrapped quantity resting there |
| `Answers.BestSays` | src/core/order_book.c:766-790 | the top of a side is its first price and the sum, modulo 2^32, of what rests at it |
| `BookOps.CheckTop` | src/core/order_book.c:766-816 | top-of-book messages and cached tops change exactly as the specification's announcement, whose symbol, sides and order `Answers` gives |
| `BookOps.AppendedEnqueue` | src/core/order_book.c:710-761 | appending to the level of its price queues an order by price, then time, on the flattened side |
| `BookOps.AddToBook` | src/core/order_book.c:736-761 | an order rests behind every order at least as good; the other side and all other pool slots are untouched |
| `BookOps.TakeOrder` | include/core/order.h:170-193 | a fresh pool slot holds the initialised order, and the book is as before |
| `BookOps.RestOrFree` | src/core/order_book.c:913-922 | a limit remainder is queued, anything else goes back to the pool |
| `BookOps.SettleOrder` | src/core/order_book.c:906-922 | matching followed by resting equals the specification on both sides, with exactly the match's trades |
| `BookOps.AddOrder` | src/core/order_book.c:884-926 | a new order changes the abstract book and sends messages exactly as the specification; with an empty pool nothing happens at all; no pool slot outside the book and the free list changes |
| `Answers.AddSays` | src/core/order_book.c:884-926 | the answer to an order: its acknowledgement with the book's symbol and the order's ids, then one trade for each of the first n opposing orders with all its fields, then at most a bid top and an ask top, of the symbol's first 14 characters |
| `Answers.AddLeaves` | src/core/order_book.c:736-922 | of a limit order exactly the quantity not traded comes to rest, with its ids, client and price, behind every order at least as good and before every worse one; nothing rests of a market order |
| `Cancelling.RemovedDrops` | src/core/order_book.c:931-983 | taking out the order at its place is dropping its key from the flattened side |
| `Cancelling.RemoveOrder` | src/core/order_book.c:944-986 | the order of a live key leaves list, level, map and book, its slot becomes free, and an empty level is dropped |
| `Cancelling.CancelOrder` | src/core/order_book.c:931-994 | a cancel behaves as the specification, and a key that is not live is acknowledged without any change |
| `Answers.CancelSays` | src/core/order_book.c:931-994 | a cancel of any key is acknowledged first, with the book's symbol and the given ids |
| `ClientCancel.ScannedIsReach` | src/core/order_book.c:1023-1051 | the level-by-level scan of at most 200 orders sees exactly the first 200 orders of every price |
| `ClientCancel.ScanLevel` | src/core/order_book.c:1024-1036 | the client's keys on one level are collected in queue order |
| `ClientCancel.ScanSide` | src/core/order_book.c:1023-1051 | the client's keys within reach on one side are collected, best price first |
| `ClientCancel.CancelClient` | src/core/order_book.c:1012-1061 | the two-phase cancel equals cancelling the collected keys one after the other, and returns their number |
| `Answers.CancelAllSays` | src/core/order_book.c:1053-1058 | cancelling a list of keys acknowledges each once, in the list's order |
| `ClientCancelLaws.ReachIsRank` | src/core/order_book.c:1023-1051 | an order is within reach exactly when fewer than 200 orders stand before it at its price |
| `ClientCancelLaws.ClientCancelExact` | src/core/order_book.c:1012-1061 | a side keeps exactly the other clients' orders, in their order, if and only if none of the client's orders has 200 before it at its price |
| `ClientCancelLaws.SmallLevelsExact` | src/core/order_book.c:1012-1061 | with at most 200 orders per level the client cancel is a filter |
| `ClientCancelLaws.ClientCancelCount` | src/core/order_book.c:1053-1060 | the returned number is the number of orders that left the book |
| `ClientCancelLaws.CrowdSurvives` | src/core/order_book.c:1027-1035 | of 201 orders of one client at one price a client cancel takes the first 200 and reports 200; the side then holds exactly the last one |
| `Flushing.FlushSide` | src/core/order_book.c:1080-1127 | a side is acknowledged from the cursor on, best first, and is done exactly when budget is left over |
| `Flushing.ClearBook` | src/core/order_book.c:1136-1155 | both sides and the map are empty and every order of the book is free |
| `Flushing.Finalize` | src/core/order_book.c:1132-1180 | the book equals a new one, and one elimination message is sent for each side that was ever active |
| `Flushing.Flush` | src/core/order_book.c:1188-1249 | a call acknowledges exactly the next 4096 orders and changes nothing else, or acknowledges the fewer that are left and finishes |
| `Flushing.FlushToEnd` | src/core/order_book.c:1188-1249 | N orders take N / 4096 + 1 calls, and the calls together send one acknowledgement per order, bids then asks, best first, and the eliminations; the book ends empty |
| `Answers.FlushSays` | src/core/order_book.c:1080-1180 | a flush acknowledges every bid in order, then every ask, with the symbol and the ids, then eliminates exactly the active sides, the bids first; nothing is left |
| `Answers.RunActive` | src/core/order_book.c:766-816 | in every run a side is active, and so will be eliminated by a flush, exactly when an order has rested on it after some operation since the last flush |
| `BookLaws.EnqueuePlace` | src/core/order_book.c:736-761 | a queued order stands behind every order at least as good and before every worse one, all others keep their order |
| `BookLaws.StepInv` | src/core/order_book.c:884-1249 | every public operation keeps the book invariant and the symbol |
| `BookLaws.RunInv` | src/core/order_book.c:884-1249 | after every run with fresh keys: prices sorted, no market or filled order rests, keys unique across both sides, best bid strictly below best ask, announced tops current |
| `FreshIds.DistinctIsFresh` | src/core/order_book.c:710-731 | if no pair of user and order id is used twice and quantities are positive, a run meets what the book's laws ask of it, whatever is cancelled or flushed in between |
| `Answers.RunBook` | src/core/order_book.c:884-1249 | in every run the bids fall and the asks rise from the front, every bid is below every ask, every order is live and limited, and no two share user and order id |
| `Answers.RunNamed` | include/protocol/message_types.h:489-490 | every message of a run carries the book's symbol, a top-of-book message its first 14 characters when it is longer |
| `BookRuns.Perform` | src/core/order_book.c:884-1249 | one operation on the arrays after any run: the book is that of the longer run, its invariant holds, and the drained messages are the operation's |
| `BookRuns.FewFits` | src/core/order_book.c:157-194 | pigeonhole: while at most 127 orders rest, a new order always finds a level and a map slot |
| `BookRuns.SentinelKeys` | include/core/order_book.h:79-91 | of all pairs of user and order id only 0, 0 and the two largest give a key that the maps cannot store |
| `BookRuns.WindowFull` | src/core/order_book.c:157-194 | one fewer resting keys than probes is the most that is safe: for any number of probes and any larger table, as many keys as probes fill a window, and no other key with that hash can be inserted |
| `BookRuns.Drive` | src/core/order_book.c:884-1249 | a whole run on the arrays with at most 127 orders resting trips no assertion of the source, ends in the abstract run's book and delivers all its messages in order |
| `BookHistory.AnnounceReplay` | src/core/order_book.c:766-816 | an announcement brings a listener from the last announced top to the current one |
| `BookHistory.RunReplay` | src/core/order_book.c:766-816 | replaying a side's top-of-book messages from (0, 0) gives its best price and quantity after every run, including flushes and eliminations |
| `BookMsgs.TradesReach` | src/core/order_book.c:550-678 | an order trades with exactly those opposing orders that it crosses while the ones before them do not use it up |
| `BookMsgs.AddCount` | src/core/order_book.c:884-926 | the opposing top moves exactly when there is a trade, the own top exactly when the order comes to rest in the lead, so the number of messages is exact, despite totals that wrap |
| `BookMsgs.AddFits` | include/core/order_book.h:351-360 | an order that trades with the first n opposing orders loses no message of an empty buffer if and only if 1 + n, plus 1 if n > 0, plus 1 if it comes to rest at a price not worse than its side's best, is at most 8192 |
| `BookMsgs.ClientCancelMsgs` | src/core/order_book.c:1012-1061 | a client cancel sends one acknowledgement per collected order and one top for each of them that stands in front of, or at the price of, the first order that stays on its side |
| `BookMsgs.ClientCancelFits` | include/core/order_book.h:351-360 | it loses no message of an empty buffer if and only if these are at most 8192 |
| `Ledger.CancelAllIsFilter` | src/core/order_book.c:1053-1058 | cancelling keys one by one removes exactly their orders and keeps the order of all others |
| `Ledger.RunConserves` | src/core/order_book.c:917-922 | over any run, accepted quantity is traded, still resting, withdrawn, or a discarded market remainder |
| `OrderLedger.MatchFills` | src/core/order_book.c:488-527 | what leaves a resting order is traded in its name on its side, and what leaves the incoming order in that one's |
| `OrderLedger.RunFills` | src/core/order_book.c:884-1249 | over any run, what was accepted under any set of keys was traded in their name, still rests, was withdrawn, or is a discarded market remainder |
| `OrderLedger.NeverOverfilled` | include/core/order.h:217-234 | no order is ever traded for more than was accepted under its key |
| `SymbolTable.FindSymbolIs` | src/core/matching_engine.c:33-56 | a lookup of a non-empty symbol finds it if it is stored, and nothing otherwise |
| `SymbolTable.SlotLeft` | src/core/matching_engine.c:62-97 | pigeonhole: with fewer than 64 symbols stored, one of 64 probes meets an empty slot |
| `SymbolTable.EmptyIsFound` | src/core/matching_engine.c:39-53 | a lookup of the empty symbol, which is never stored, returns an unused slot whenever its probes meet one |
| `SymbolTable.GapLeft` | src/core/matching_engine.c:33-56 | with fewer than 64 symbols stored they always do |
| `SymbolTable.SymbolMap.Find` | src/core/matching_engine.c:33-56 | the loop returns the symbol's book index, -1 if it has none, and book 0 for the empty symbol whenever the probes meet an unused slot |
| `SymbolTable.SymbolMap.Insert` | src/core/matching_engine.c:62-97 | the map gains the symbol; with fewer than 64 stored, insertion cannot fail |
| `Engine.Tracked` | src/core/matching_engine.c:140-152 | what the order-to-symbol map keeps of a symbol is the symbol itself exactly up to 14 characters |
| `Engine.PartitionKept` | src/core/order_book.c:75-127 | an operation that moves slots between one book and the free list keeps the partition of the pool |
| `Engine.OtherCoherent` | src/core/matching_engine.c:235-304 | whatever one book does to the shared pool leaves every other book's contents as they were |
| `Engine.Operated` | src/core/matching_engine.c:271-374 | an operation on one book keeps the whole engine valid, including the pool partition, and all other books unchanged |
| `EngineOps.GetBook` | src/core/matching_engine.c:271-304 | a known symbol gets its book, a new one an empty book, the empty symbol that of the symbol that came first: the book is the symbol's own if and only if the symbol is not empty; failure means exactly that 64 others are known, or no unused slot is met |
| `EngineOps.ProcessNewOrder` | src/core/matching_engine.c:309-333 | the order reaches the book that takes its symbol and no other, its key is tracked if there is room, and an order that no book takes is acknowledged and dropped |
| `EngineOps.ProcessCancel` | src/core/matching_engine.c:338-374 | the cancel runs in the tracked symbol's book, the key is forgotten, and unknown keys are acknowledged without change |
| `EngineOps.CancelClientOrders` | src/core/matching_engine.c:470-490 | every book is swept, messages follow the order in which books were opened, and the total is the sum |
| `EngineFlush.FlushRound` | src/core/matching_engine.c:382-402 | one batch for every book selected, exactly as each book's own flush, and done exactly when all are |
| `EngineFlush.ProcessFlush` | src/core/matching_engine.c:436-446 | the first batch of every book, and no key is tracked any more |
| `EngineFlush.ContinueFlush` | src/core/matching_engine.c:452-457 | the next batch of exactly the books whose flush is in progress; true exactly when all of them finish |
| `FlushRounds.RoundConserves` | src/core/matching_engine.c:382-416 | a round sends part of what the books have yet to send and leaves exactly the rest |
| `EngineFlush.RestingBound` | src/core/order_book.c:75-127 | by the pool partition, all books together hold at most 8192 orders |
| `FlushRounds.DeliveredIff` | src/core/matching_engine.c:407-457 | a whole flush delivers everything once if and only if the first round fits the buffer, counted book by book: the orders and the active sides of a book that finishes, 4096 for one that does not; no later round can overflow |
| `FlushOrder.FlushInOrder` | src/core/matching_engine.c:382-465 | in a whole flush of the engine that loses nothing, the acknowledgements of each book's symbol are its orders, each once, bids before asks, by price and then time, whatever the rounds mix in between |
| `FlushRounds.FlushLoses` | include/core/order_book.h:351-360 | two sound books of 4095 and 4097 orders send 8193 messages in the first round, and one is lost |
| `EngineFlush.FlushEverything` | src/core/matching_engine.c:382-465 | rounds end; all books are empty and none is flushing, all 8192 orders free, no key tracked; the drained messages are given exactly, and from an empty buffer they are one acknowledgement per order and one elimination per active side if and only if the first round, counted book by book, fits the buffer |
| `EngineLaws.ProcessMessage` | src/core/matching_engine.c:495-522 | orders and cancels are processed exactly as by the abstract engine and start no flush; a flush message sends the next batch of every book and forgets all keys |
| `EngineLaws.Serve` | src/threading/processor.c:253-283 | from one drained buffer to the next the engine object does exactly what the abstract engine says to orders, cancels, client cancels and whole flushes, and no book is left flushing, so any request can follow |
| `EngineLaws.TrackingStays` | src/core/matching_engine.c:117-215 | requests that do not touch a key leave its tracked symbol, every known symbol and the symbol that came first |
| `EngineLaws.CancelReaches` | src/core/matching_engine.c:309-374 | after any later requests that do not touch the key, a cancel runs in the book that took the order, and there alone, if the key was tracked, the symbol has at most 14 characters and, if empty, is still found; if not, that book stays as it is |
| `EngineLaws.CancelRemovesOne` | src/core/order_book.c:931-994 | a cancel takes out one order and leaves the other side and all neighbours in place |
| `EngineLaws.EngineRunInv` | src/core/matching_engine.c:309-490 | in every run of orders, cancels, client cancels and flushes every book keeps the book invariant |
| `FreshIds.DistinctInputs` | src/core/matching_engine.c:309-333 | the same for a whole engine: orders whose ids rest nowhere and are not used again meet what the engine's laws ask |
| `EngineLaws.EngineCancel` | src/core/matching_engine.c:309-374 | an order that still rests is taken out by its cancel, exactly it, if and only if the cancel reaches its book; otherwise it goes on resting |
| `EngineLaws.CancelMisses` | src/core/matching_engine.c:33-152 | three resting orders that outlive their cancel, one for each way: a 15-character symbol, a key that was not tracked, and an empty symbol that is found no more |
| `EngineLaws.EmptySymbolTrades` | src/core/matching_engine.c:271-333 | an order of the empty symbol rests in the book of the symbol that came first, and is acknowledged in that symbol's name |
| `EngineRuns.ServeNext` | src/threading/processor.c:253-283 | after any run on the engine object, one more request: the object is in the state of the longer run, valid with its pool partition, every book with its invariant, and ready for the next request |
| `EngineRuns.MildAdmissible` | src/core/matching_engine.c:309-490 | while at most 63 books hold at most 127 orders each and fewer keys are tracked than the key map probes, every demand of the source on a request is met, and nothing is full |
| `EngineRuns.ServeAll` | src/threading/processor.c:253-283 | a whole list of orders, cancels, client cancels and flushes on the object: no assertion of the source fails, the end is that of the abstract run, valid with its pool partition and book invariants, and the drained messages are the run's |
| `EngineSplit.RouteByLetter` | include/protocol/symbol_router.h:56-92 | for every symbol, the branchless arithmetic gives 1 exactly for first characters N to Z and n to z, and symbols are valid exactly with a first letter in either case |
| `EngineSplit.EngineIsAlone` | src/core/matching_engine.c:271-374 | with at most 64 symbols an engine treats the orders and cancels of each symbol as if it were alone, and tracks exactly the keys ordered and not cancelled since |
| `EngineSplit.TracksSplit` | src/network/tcp_listener.c:113-167 | after such a feed an engine tracks exactly those keys of a single engine whose symbols are routed to it |
| `EngineSplit.ProperWhen` | src/network/tcp_listener.c:113-167 | requests reach the processors that track their keys if ids are not ordered twice and every cancel carries its order's symbol or no valid one |
| `EngineSplit.TwoEnginesEqualOne` | src/network/tcp_listener.c:113-167 | for every feed of orders and cancels in which a request reaches the processors that track its key: for first characters A to M and a to m engine 0 sends exactly the messages of a single engine and engine 1 none, for N to Z and n to z the other way round, and for all other symbols both send them |
| `EngineSplit.CancelRouted` | src/network/tcp_listener.c:113-167 | one more cancel of a tracked key: the engines of the tracked symbol go on like a single engine if and only if the carried symbol is routed to all of them; one that misses it keeps its book as it is |
| `EngineSplit.Misrouted` | src/network/tcp_listener.c:113-116 | an order of AAPL and a cancel of it that carries NVDA: a single engine withdraws the order, of two engines the one that has it lets it rest |
| `EngineSplit.CancelAnswer` | src/core/matching_engine.c:338-374 | a tracked key is answered in its tracked symbol and an untracked one as UNKNOWN, whatever the cancel carries |
| `EngineSplit.UnknownAnswers` | src/protocol/csv/message_parser.c:216-222 | as both parsers leave a cancel's symbol empty, two engines together answer as many more cancels as UNKNOWN than a single one as there are cancels |
| `EngineSplit.BothAnswer` | src/network/tcp_listener.c:145-157 | an order of a symbol that starts with a digit is answered by both engines, alike |
| `SpscQueue.StepInv` | include/threading/lockfree_queue.h:192-307 | every atomic step of producer and consumer keeps the queue invariant, with any stale view of the other side's index |
| `SpscQueue.NeverStuck` | include/threading/lockfree_queue.h:192-307 | in every reachable state the next step of each side can be taken, with any view of the other's index since the last look: neither waits for the other |
| `SpscQueue.NoRace` | include/threading/lockfree_queue.h:210-288 | in no interleaving does the consumer read the slot that the producer is writing |
| `SpscQueue.QueueSafe` | include/threading/lockfree_queue.h:192-307 | over every interleaving, dequeued followed by buffered items are the enqueued ones, at most 65535 are held, and the self-check of one moment fails exactly when an enqueue is published but not counted, the ring is empty and no dequeue waits to be counted |
| `SpscQueue.SentIsPublished` | include/threading/lockfree_queue.h:192-307 | over every interleaving, what is published is what callers passed to the enqueues that were published, read off the actions alone, and what the consumer is handed is a prefix of it |
| `SpscQueue.StatisticsAre` | include/threading/lockfree_queue.h:200-307 | over every interleaving, once both sides are idle: every enqueue called is counted once, as done or as failed; the peak is the most the producer saw; dequeued items and batches are counted exactly |
| `SpscQueue.ReadsApart` | include/threading/lockfree_queue.h:352-381 | the self-check with its values read at four moments, the counts in either order: the index checks never fail, and the count check fails in exactly the stated states |
| `SpscQueue.OwnThreadChecks` | include/threading/lockfree_queue.h:352-381 | on the producer's own thread the self-check never fails, on the consumer's exactly when the ring is empty and an enqueue is published but not counted |
| `SpscQueue.FullOnlyAtCapacity` | include/threading/lockfree_queue.h:200-208 | an enqueue fails exactly when the producer sees 65535 items held |
| `SpscQueue.EmptyOnlyWhenEmpty` | include/threading/lockfree_queue.h:233-288 | a dequeue gives nothing exactly when the consumer sees nothing held, and a batch otherwise as many as it asks for or as there are |
| `SpscQueue.BatchIsSingles` | include/threading/lockfree_queue.h:264-307 | undisturbed, a batch dequeue of n items and n single dequeues reach the same queue and hand out the same items; only the batch counter differs |
| `SpscQueue.BatchAnywhere` | include/threading/lockfree_queue.h:264-307 | however the producer's steps fall between those of a batch dequeue, single dequeues fit between the same producer steps with the same items and the same final queue |
| `SpscQueue.DequeuesOvertake` | include/threading/lockfree_queue.h:372-377 | a run after which the self-check reports the state it calls impossible |
| `Framing.NextFrame` | src/network/message_framing.c:70-136 | a complete frame at the front is recognised whatever follows, an incomplete one never is |
| `Framing.FrameBytes` | src/network/message_framing.c:163-191 | a message of 1 to 4096 bytes is framed as its length in four bytes, most significant first, and the message |
| `Framing.ReadsLength` | src/network/message_framing.c:70-136 | for any bytes: the number in the first four, most significant first, is an error if it is 0 or above 4096, is waited for, or is handed out |
| `Framing.LongestMessage` | src/network/message_framing.c:70-136 | a frame of 4096 bytes is read, one of 4097 is an error |
| `Framing.Reader.Append` | src/network/message_framing.c:45-68 | as many bytes as fit are appended, in order |
| `Framing.Reader.Extract` | src/network/message_framing.c:70-136 | the result and the bytes kept are those of the parsing function; a bad length discards everything |
| `Framing.Reader.HasData` | src/network/message_framing.c:138-157 | true exactly when the next extraction is a message or an error |
| `Framing.Writer.Begin` | src/network/message_framing.c:163-191 | messages of 1 to 4096 bytes become their frame, any other length is refused |
| `Framing.FrameMessage` | src/network/message_framing.c:222-251 | framing in one piece gives the same bytes as the writer |
| `Framing.NeedMoreRoom` | include/network/message_framing.h:40-46 | a reader that asks for more holds at most 4099 bytes, whatever they are, so 257 more fit |
| `Framing.NeedMoreMost` | include/network/message_framing.h:40-46 | both bounds are met: a reader that asks for more can hold 4099 bytes and then has room for 257 |
| `Framing.SendAll` | src/network/message_framing.c:163-216 | any pattern of partial writes puts exactly the frames on the wire |
| `Framing.Receive` | src/network/message_framing.c:45-136 | any chunking with re-feeding yields exactly the messages framed, in order, and keeps the unfinished frame |
| `Framing.RoundTrip` | src/network/message_framing.c:45-251 | messages sent through any partial writes and received in any chunks arrive exactly and in order |
| `ClientRegistry.VacantNear` | src/threading/client_registry.c:153-168 | pigeonhole: the slot an insertion takes is no further from the hash than the number of active clients |
| `ClientRegistry.FindUnique` | src/threading/client_registry.c:92-125 | with unique ids a lookup finds a client exactly when it sits within 256 steps of its hash |
| `ClientRegistry.Registry.FindSlot` | src/threading/client_registry.c:92-125 | the loop is the lookup function, and what it finds is active and has the id |
| `ClientRegistry.Registry.FindEmpty` | src/threading/client_registry.c:153-168 | the first vacant slot from the hash on, and -1 exactly when there is none |
| `ClientRegistry.Registry.TakeTcpId` | src/threading/client_registry.c:217-224 | a TCP id below the UDP range, the next of the counter, new unless the counter wrapped; it waits for its insertion |
| `ClientRegistry.Registry.InsertTcp` | src/threading/client_registry.c:226-253 | the client is registered in the first vacant slot behind its hash, or 0 exactly when all slots are taken; ids stay unique, counts exact, and the ids that other threads have taken still wait |
| `ClientRegistry.Registry.LookupUdp` | src/threading/client_registry.c:303-314 | the read-locked half returns the id of the address's entry |
| `ClientRegistry.Registry.AddUdp` | src/threading/client_registry.c:316-359 | the write-locked half looks again, so no address ever has two active entries; UDP ids stay in their own range, waiting TCP ids keep waiting, and the counter wraps exactly at its end |
| `ClientRegistry.Registry.Remove` | src/threading/client_registry.c:362-403 | exactly the found entry is vacated and its transport's count reduced |
| `ClientRegistry.Registry.SetProtocol` | src/threading/client_registry.c:523-552 | a client's protocol is fixed once |
| `ClientRegistry.RegistrationIsEvent` | src/threading/client_registry.c:226-253 | a registration is one event of the histories below |
| `ClientRegistry.FoundUntilRemoved` | src/threading/client_registry.c:92-403 | a client registered while at most 255 are active is found by id after any events but its own removal, despite holes |
| `ClientRegistry.FoundIffNear` | src/threading/client_registry.c:92-168 | in general, a registered client is found if and only if its slot was taken less than 256 steps from its hash |
| `ClientRegistry.CrowdedOut` | src/threading/client_registry.c:92-168 | behind 256 clients in a row a newcomer registers, but no lookup finds it |
| `RegistryRuns.StepSound` | src/threading/client_registry.c:212-403 | every locked section of any thread keeps ids unique and new ids unused until a counter wraps |
| `RegistryRuns.FoundInRun` | src/threading/client_registry.c:92-403 | over every schedule of locked sections of any threads, before an id counter wraps: a registered client that was not removed is found if and only if its slot is less than 256 steps from its hash, and always if at most 255 were active when it registered |
| `RegistryRuns.Perform` | src/threading/client_registry.c:212-403 | one locked section on the object is one step of the schedule |
| `RegistryRuns.Execute` | src/threading/client_registry.c:212-403 | any schedule on the object ends in the state of the schedule's steps, and the two counts add up to the active entries |
| `RegistryRuns.ExecuteAndFind` | src/threading/client_registry.c:92-403 | after any schedule on a new registry, a lookup on the object finds a client registered with at most 255 active and not removed since |

## Left out

- Sockets, threads, multicast, signals, printing, interactive clients and scenarios: input and output without a decided property.
- CSV and binary message codecs: their formats are not part of this model.
- Timestamps, cache layout, struct padding and prefetching: FIFO is list position, and timestamps decide nothing.
- Concrete hash functions: every hash into the table is allowed, and a full probe window stays an explicit outcome.
- Pool statistics (peak usage, failure counts) and traffic counters of the registry: they decide nothing.
- Weak memory beyond stale index views: the acquire and release pairs are atomic steps, and the queue is modelled on values as a state machine over these steps, not as a class.
- Several producers on one queue, and a client cancel from another thread: outside the single-producer and single-owner contracts of the source.
- Orders and cancels between the calls of an unfinished flush: the flush cursor assumes an unchanged book.
- The listener's overflow reset and its limit of 64 messages per read: the round trip is a property of the framing functions with callers that feed again what was not taken.
- The UDP client map of the receiver, the direct-mapped user map and the unified-mode symbol split: they would only add easy members.
- `client_registry_add_udp`, the registration without an address check, which nothing calls.
- Routing of flushes and client disconnects to two processors: the equality with one engine is stated for orders and cancels, with at most 64 symbols, none of them empty, and a pool and a key map with room.
- Debug warnings about unknown messages and full tables.
- `order_book_flush_reset`, which abandons a flush.
- BookOps.AddOrder: requires `Fits` of an order that has to rest, which adds to the source's assertions that its key is not resting already once it has matched, as the book is incoherent otherwise.
- BookOps.AddToBook: requires that the order's key is not live, after the match, as `Fits` does.
- BookOps.RestOrFree: requires that a remainder's key is not live after the match, as `Fits` does.
- BookOps.SettleOrder: requires that a remainder's key is not live after the match, as `Fits` does.
- Flushing.Flush: requires that no list is as long as the pool, as `list_free_all` asserts.
- EngineOps.ProcessNewOrder: a key that is tracked already has no tombstone before its slot (`Trackable`), because otherwise the key map stores it twice and stands for no map; a remainder's key is not live after the match, as in `BookOps.AddOrder`.
- SpscQueue.QueueSafe: the self-check is that of one moment, `ReadsApart` is the one of four moments; counters do not wrap around.
- BookRuns.Drive: stated for runs with at most 127 resting orders, where every demand of the source is met for every hash function; `BookRuns.Perform` is the general step.
- EngineRuns.ServeAll: stated for engines with at most 63 books of at most 127 orders and with fewer tracked keys than probes, for the same reason; `EngineRuns.ServeNext` is the general step.
- ClientRegistry.FoundUntilRemoved: holds before the id counters wrap, as do the runs of `RegistryRuns`; afterwards ids may repeat.
