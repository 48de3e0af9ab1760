# Verified model of the matching engine and its distribution layers

A Dafny model of a price-time-priority exchange: the order book and matching engine, the price collar,
the lock-free ring in front of the engine, the TCP framing, the symbol sharding, the file-backed log with
its checkpoints, and the replicas of a shard with leader failover. `dafny verify dfyconfig.toml` checks
everything.

## How the model is built

- **Engine.** `OrderBook.dfy` and `MatchingEngine.dfy` are the mutable code: price-level maps of FIFO
  queues, a cancel index, the matching loop, all updated in place. Their contracts equate each call with a
  step of a value-level engine (`Exchange.dfy`), in which a side of the book is one queue in priority
  order (`PriceLevels.Queue`; nothing is lost in this view, by `QueueInjective`). What the engine promises
  over all runs is proved on that value: `BookInvariants`, `PriceTime`, `Greedy`, `CancelIndex`, `Ledger`,
  `TradeLaws`, `Provenance`, `CollarHalts`, `TimeBlind`. `PoolExchange` is a second exchange, without queues and with
  its own statement of every rule (which prices an order accepts, whom it trades with first, what a trade records, what
  the collar refuses and why), that every run agrees with.
- **Ring.** `Ring.dfy` has one step per atomic load, atomic store or slot access of `push`, `pop` and
  `shutdown`. A schedule decides who steps, so a lemma for all schedules covers all interleavings.
- **Feed and shards.** `Wire` and `FeedHandler` cover the frames, the reassembly loop and the event loop over
  many connections, `ShardRouter` the gateways, `Shard` what one engine process computes from its log,
  `EndToEnd` the whole path.
- **Log and failover.** `LogCursor` has one step per file operation of `pop`, with crashes in between, for
  any number of readers. `Failover` has one step per action of a replica (boot, pop, try the lock, submit,
  publish one trade, finish, die) and any number of replicas; it is stated for any deterministic service,
  and `ShardFailover` plugs in the matching engines. `Handovers` says what the topic then holds, `SoloRun` is the
  undisturbed run, `StandbyAhead` and `LostTrades` give runs in which the topic misses something, `ShardTrades` says
  where every trade on it comes from. `EngineTable` and `EngineProcess` are one
  replica as code: the engines of its symbols in the heap, the lock, the consumer loop.
  `Spans` is what log and failover share: pieces of a stream laid end to end, and when they make it up exactly once.

Prices are exact reals. Quantities, ids, timestamps and ring counters are natural numbers; 64-bit words
are modelled where the code shifts or multiplies them (`RingCapacity.RoundUp`,
`Sharding.Fnv1a`, on the bitwise `ExclusiveOr`). A symbol is the byte string before the first zero byte of its field.

## Where the code and its documentation differ

- `include/log_backed_order_queue.hpp:27-31` says that a restarted reader resumes exactly, with no order
  lost and none replayed. `LogCursor.RecoveredAfterCrash` says exactly when that holds;
  `TornCheckpointReplays` and `LateCrashSkips` are the two ways in which it does not.
- `src/engine_main.cpp:100-102` and `docs/distributed_system.md:119-125` say that a standby is identical to
  the leader at all times. It is identical to a replica that started at the same offset and got equally far
  (`Failover.ReplicasAgree`), but it may be behind or ahead, and a replica that resumed at its checkpoint has only
  the orders since then (`ShardFailover.WarmReplicas`). But for timestamps, its book and last price for a symbol are
  those of a fresh replica all along exactly if at that point nothing of the symbol rested and nothing had been traded
  (`ShardFailover.RestartRightIff`, and in any run `RestartInRuns`); `LostTrades.RestartMissesTrade` is a trade it does not make.
  `StandbyAhead.StandbyAheadLosesResults` loses the results of any log to a standby that is ahead, and
  `LostTrades.LostTrade` is a trade lost so. `Handovers.TimesPublished` says how often each trade is published, and
  `Handovers.FailoverExactly` when none is lost or repeated.
- `src/engine_main.cpp:9-11` says that a standby takes over on its next poll of the lock. It polls only after `pop`
  returned a record, so on a quiet log nobody takes over until the next order comes (`Handovers.TakeoverNeedsRecord`).
- A client that closes right after sending can lose orders: what `recv` returned in the wakeup that also saw the
  end of the stream is never parsed. `FeedHandler.SentAndClosed` is such a client and `FeedHandler.ArriveUpToClose`
  says exactly which orders arrive.
- The cancel index is exact unless an id is reused while it still rests. `CancelIndex.SubmitAgrees` gives
  the exact condition and `CancelIndex.ReusedIdExample` an order that can no longer be cancelled.
- The collar rejects every LIMIT order, even one at the last price, exactly when the last price and the band have
  opposite signs (`CollarHalts.HaltedRejectsAll`). One trade at a negative price gets an engine there
  (`CollarHalts.NegativePriceHalts`).
- The ring's constructor loops forever for a requested capacity above 2^63 (`RingCapacity.RoundUpTerminates`).

## Model

| member | source | states |
|---|---|---|
| PriceLevels.Best | include/order_book.hpp:33-35 | `begin()` of a side is a price of the side that is ahead of all others: the highest bid, the lowest ask |
| PriceLevels.QueueInjective | include/order_book.hpp:33-35 | the queue view determines the price-level map, so equal queues are equal books |
| PriceLevels.QueuePushBack | src/order_book.cpp:13-17 | appending at the back of a price level is insertion behind every order of equal or better price |
| PriceLevels.QueueErase | src/order_book.cpp:29-40 | erasing from one level, and the level once empty, removes exactly that order from the side |
| PriceLevels.QueueReplaceBest | src/matching_engine.cpp:24-55 | changing the best level changes only the head of the queue |
| OrderBooks.OrderBook.AddRestingOrder | src/order_book.cpp:8-20 | the new book is the old one with the order at its priority and its index entry; levels stay non-empty and keyed by their orders' price |
| OrderBooks.OrderBook.CancelOrder | src/order_book.cpp:22-57 | for any index and any ids, removes the first order of that id at the indexed price, if any, and the entry; false exactly when there is no entry |
| OrderBooks.OrderBook.EraseFirst | src/order_book.cpp:29-40 | the scan of a level erases the first order with the id, and the level once empty, which removes exactly that order from the side |
| OrderBooks.OrderBook.BestBid | src/order_book.cpp:59-62 | the price of the first bid in priority, none exactly when there are no bids |
| OrderBooks.OrderBook.BestAsk | src/order_book.cpp:64-67 | the price of the first ask in priority, none exactly when there are no asks |
| OrderBooks.OrderBook.EmptySide | src/order_book.cpp:69-71 | true exactly when no order rests on the side |
| OrderBooks.OrderBook.RemoveFromIndex | src/order_book.cpp:73-75 | drops that entry of the index and changes nothing else |
| MatchingEngines.MatchingEngine.FillFront | src/matching_engine.cpp:24-55 | one turn of the loop trades with the first order in priority and leaves the queue, index, last price and clock accordingly |
| MatchingEngines.MatchingEngine.MatchAgainst | src/matching_engine.cpp:10-57 | the loop over price levels terminates and computes the sweep over the priority queue: trades, remainder, book, index, last price, clock |
| MatchingEngines.MatchingEngine.SubmitOrder | src/matching_engine.cpp:59-84 | result and whole new state are those of the value-level submission, rejections included |
| MatchingEngines.MatchingEngine.CancelOrder | src/matching_engine.cpp:86-88 | result and whole new state are those of the value-level cancellation |
| MatchingEngines.MatchingEngine.SubmitEach | src/server_main.cpp:34-48 | the consumer thread's state and trades are those of submitting the orders in turn |
| MatchingEngines.MatchingEngine.constructor | src/matching_engine.cpp:7-8 | a new engine has an empty book, no last price, clock 1 and the given percentage as a fraction for its band |
| PriceCollar.AcceptedPrices | src/price_collar.cpp:10-27 | accepted exactly within ref·(1±band); a rejection says too high above that and too low below it; some price is acceptable if and only if ref·band is not negative |
| CollarHalts.HaltedRejectsAll | src/matching_engine.cpp:64-69 | an engine rejects every LIMIT order if and only if its last price and band have opposite signs |
| CollarHalts.HaltedUntilMarket | src/matching_engine.cpp:64-69 | from there no run without MARKET orders makes a trade or changes that |
| CollarHalts.NegativePriceHalts | src/price_collar.cpp:16-26 | under any positive band, two LIMIT orders that trade at a negative price bring a new engine there |
| Matching.SweepRest | src/matching_engine.cpp:13-56 | a sweep takes a prefix of the queue, only its last trade may be partial, the rest is untouched, and a remainder means the new head does not cross |
| Matching.SweepTrade | src/matching_engine.cpp:27-43 | the i-th trade is with the i-th order in priority, at that order's price, with consecutive timestamps, and fills it if it left the book |
| BookInvariants.SubmitGood | src/matching_engine.cpp:59-84 | any submission keeps strict price-time order, positive remainders no larger than the quantity, and bids below asks |
| BookInvariants.CancelGood | src/order_book.cpp:22-57 | so does any cancellation |
| BookInvariants.RunGood | src/matching_engine.cpp:59-88 | so does every run of submissions and cancellations, ids reused or not, quantity zero included |
| BookInvariants.NeverCrossed | tests/test_matching_engine.cpp:199-210 | in every reachable state the best bid is below the best ask |
| PriceTime.SweepIsReference | src/matching_engine.cpp:13-56 | on a queue in strict priority, the loop makes the trades and leaves the orders of a matcher that picks the best price and then the earliest from an unordered pool |
| PriceTime.OneArrangement | include/order_book.hpp:33-35 | a set of orders has one arrangement in strict priority |
| PriceTime.PriceTimePriority | src/matching_engine.cpp:59-84 | in every reachable state an accepted order makes exactly the reference matcher's trades, and both sides afterwards are in priority: the other holds what that matcher leaves, its own what it held and the LIMIT remainder |
| PoolExchange.RunForgets | src/matching_engine.cpp:10-88 | over every run of submissions and cancels, the engine makes the trades and holds the orders, index, last price and clock of an exchange over two unordered pools |
| PoolExchange.RunsAlike | src/matching_engine.cpp:7-88 | from a new engine on, trades and state over every run are those of that exchange, which shares no rule with the engine's definition |
| PoolExchange.SubmitForgets | src/matching_engine.cpp:59-84 | so for one submission: the trades, or the rejection with the order's id and the side of the collar it was on, and the state after it, with the remainder at rest under its own terms and arrival time |
| PoolExchange.CancelForgets | src/order_book.cpp:22-57 | so for one cancellation, its result included: the earliest order of the id at the indexed price goes |
| PoolExchange.ForgetInjective | include/order_book.hpp:33-35 | the pools determine the engine, so that exchange leaves nothing open |
| Greedy.TradedVolume | src/matching_engine.cpp:13-56 | traded volume is the smaller of the quantity and everything on offer at acceptable prices; the rest is left |
| Greedy.MarketVolume | src/matching_engine.cpp:13-56 | in any state a MARKET order is accepted, trades its quantity or all that rests on the other side, whatever the prices, and leaves its own side alone |
| Greedy.LimitVolume | src/matching_engine.cpp:13-56 | in every reachable state an accepted LIMIT order trades its quantity or all that rests on the other side at its limit or better |
| Greedy.SweepIsOptimal | src/matching_engine.cpp:13-56 | no allocation of the same volume over the crossing orders costs a buyer less or brings a seller more |
| Greedy.BestExecution | src/matching_engine.cpp:59-84 | in every reachable state no feasible allocation trades more than the submission, and none that trades as much is better |
| Greedy.AmountIsProduct | src/matching_engine.cpp:30-33 | the money of a trade is its quantity times its price |
| CancelIndex.SubmitAgrees | src/order_book.cpp:19 | from an exact index, a submission leaves it exact if and only if it does not rest under an id that will still be resting; the condition is on the state before the call |
| CancelIndex.CancelAgrees | src/order_book.cpp:55 | cancelling keeps the index exact |
| CancelIndex.RunAgrees | src/matching_engine.cpp:49-55 | over a run the index is exact at every step if and only if no submission clashes: exactly the resting ids, each at the one place where it rests |
| CancelIndex.DistinctSubmissionsAgree | src/order_book.cpp:19 | when no id is submitted twice the index is exact in every reachable state |
| CancelIndex.CancelExact | src/order_book.cpp:22-57 | with an exact index, cancel succeeds exactly for resting ids, removes that order and entry only, and keeps all others in place |
| CancelIndex.SubmitThenCancel | src/matching_engine.cpp:79-88 | a LIMIT order that rests without trading and is then cancelled leaves book, index and last price as they were |
| CancelIndex.ReusedIdExample | src/order_book.cpp:19 | after reusing a resting id and cancelling it once, the older order still rests and cannot be cancelled |
| Ledger.SweepConserves | src/matching_engine.cpp:27-47 | for every id, resting units become traded units on the opposite side, and traded units on the own side are what the order lost |
| Ledger.RunConserves | src/matching_engine.cpp:27-81 | over every run, for every side and id: submitted units are those traded, still resting, rejected, discarded or cancelled |
| Ledger.NeverOverfilled | tests/test_matching_engine.cpp:187-196 | an order whose id is submitted once is accounted for in full and never traded beyond its quantity |
| Ledger.TradesArePositive | src/matching_engine.cpp:27-43 | each trade is of positive quantity, names the aggressor and one resting order on the right sides, and no resting order trades twice in one submission |
| TradeLaws.TradePricesMonotone | src/matching_engine.cpp:13-22 | within one submission trade prices only move away from the best |
| TradeLaws.LimitAndCollar | src/matching_engine.cpp:64-69 | a LIMIT order is rejected exactly outside the collar of the last price at arrival, with its own id and the side it was on as the reason; all its trades respect limit and collar although the last price moves; a rejection changes only the clock |
| TradeLaws.LastPriceSandwich | src/matching_engine.cpp:45-47 | in every reachable state after a trade, orders older than the last aggressor are on their own side of the last price, and the aggressor's remainder is across it |
| TradeLaws.SweepSplit | src/matching_engine.cpp:11-57 | sweeping a+b units is sweeping a and then b, whatever the ignored price field of a MARKET order says: same queue, same filled ids, same final price, same units per resting order |
| TradeLaws.MarketSplit | src/matching_engine.cpp:79-81 | a MARKET order of a+b, or MARKET orders of a and of b, leave the same book, index and last price and give each resting order the same units |
| TimeBlind.RunBlind | src/matching_engine.cpp:10-88 | timestamps are never read: engines that differ only in clock and timestamps make the same trades and keep the same book, index and last price over every run, but for times |
| Provenance.RestingWasSubmitted | src/matching_engine.cpp:59-84 | over every run each resting order was submitted, and id, client, side, type, symbol, price and quantity are still those of its submission |
| Provenance.TradesAreOfOrders | src/matching_engine.cpp:27-43 | over every run each trade is of two submitted orders of opposite sides: the later took from the earlier, at the earlier one's price, within both limits and quantities |
| TimeBlind.ForgettingIsHarmless | src/matching_engine.cpp:10-84 | an engine given two lists of orders ends, but for times, as one given only the second, with the same trades from it, if the first left it blank; being blank is exactly being new but for times |
| Exchange.SubmitAllIsRun | src/matching_engine.cpp:59-84 | submitting a list of orders is one of the runs above |
| RingCapacity.RoundUp | include/lockfree_order_queue.hpp:17-23 | the constructor's loop ends with the least power of two that is large enough, in 64-bit arithmetic |
| RingCapacity.RoundUpTerminates | include/lockfree_order_queue.hpp:20 | that loop ends if and only if the request is at most 2^63 |
| RingCapacity.SlotsDiffer | include/lockfree_order_queue.hpp:34 | indices less than a capacity apart never share a slot under the mask |
| RingCapacity.SlotInRange | include/lockfree_order_queue.hpp:21-22 | a masked index is within the buffer |
| RingCapacity.SlotIsRemainder | include/lockfree_order_queue.hpp:34 | the mask takes whole turns around the ring off an index |
| Ring.AlwaysInv | include/lockfree_order_queue.hpp:25-64 | every interleaving keeps the ring's invariant |
| Ring.RingSafety | include/lockfree_order_queue.hpp:25-60 | in every interleaving the counters stay within a capacity, popped is a prefix of pushed, each unread index finds its order, and the slot being written is never the one being read |
| Ring.DrainedOnStop | include/lockfree_order_queue.hpp:48-57 | `pop` returns false only after everything pushed was popped, and then the consumer's trades and book are those of submitting the orders one after the other |
| Ring.FairSchedulesDeliver | include/lockfree_order_queue.hpp:25-60 | bounded liveness: if in each round the producer gets a turn and the consumer two, in any order, then after 15 rounds an order and 12 more the consumer has stopped with everything delivered, submitted in order |
| Ring.FairRoundProgresses | include/lockfree_order_queue.hpp:27-33 | a fair round stops the consumer or strictly reduces what is left to do: producer and consumer never wait for each other |
| Wire.FrameRoundTrip | src/tcp_feed_handler.cpp:201-212 | a frame packed by the client decodes to the order it was packed from, whatever the padding |
| Wire.DecodeEncode | include/tcp_feed_handler.hpp:15-24 | the 48-byte little-endian layout decodes to the fields it encodes |
| Wire.FrameLayout | src/tcp_feed_handler.cpp:201-212 | each field of the order made from any 48 bytes, by byte positions: side and type from bytes 16 and 17 with every non-zero code as SELL and MARKET, nothing traded, no timestamp |
| Wire.ParseInParts | src/tcp_feed_handler.cpp:186-192 | parsing a stream is parsing a first part and then its leftover followed by the rest |
| Wire.PrefixRoundTrip | src/tcp_feed_handler.cpp:186-192 | any prefix of the stream of a list of orders parses to the orders whose frames are complete in it |
| Wire.StreamRoundTrip | src/tcp_feed_handler.cpp:179-193 | the stream of any list of orders parses to that list with nothing left over |
| FeedHandler.TCPFeedHandler.ProcessBuffer | src/tcp_feed_handler.cpp:179-193 | pushes the decoded complete frames of the buffer, keeps the leftover, touches no other connection |
| FeedHandler.TCPFeedHandler.HandleClientData | src/tcp_feed_handler.cpp:154-177 | appends the reads and parses after EAGAIN; drops the connection unparsed after end of file or an error; ignores unknown descriptors |
| FeedHandler.ChunkingDoesNotMatter | src/tcp_feed_handler.cpp:138-193 | however the bytes of an accepted connection are cut into reads and wakeups, the orders pushed and the leftover are those of the whole stream |
| FeedHandler.OrdersArriveAsSent | src/tcp_feed_handler.cpp:154-212 | a client's orders are pushed exactly as sent, under every cut of the stream |
| FeedHandler.TCPFeedHandler.HandleEvent | src/tcp_feed_handler.cpp:111-135 | an event changes only its own connection, and adds to the queue what that connection pushes |
| FeedHandler.TCPFeedHandler.Run | src/tcp_feed_handler.cpp:104-136 | over any interleaving of events of any number of connections, each connection is where its own events alone bring it, and its part of the queue is what it pushed, in order |
| FeedHandler.PushesWhatWasRead | src/tcp_feed_handler.cpp:104-199 | for every sequence of events, a descriptor has pushed exactly the frames complete in what was read up to an EAGAIN from each of its connections, one connection after the other, and the open one keeps the leftover |
| FeedHandler.ArriveUpToClose | src/tcp_feed_handler.cpp:154-199 | amid any other clients, for any number of clients that get one descriptor in turn, however each connection ends: exactly the orders of each that are complete in the wakeups that ended in EAGAIN arrive; all of them if and only if these brought every whole stream |
| FeedHandler.SentAndClosed | src/tcp_feed_handler.cpp:158-172 | a client whose orders and end of stream are read in one wakeup loses all of them |
| Orders.SymbolStr | include/order.hpp:35-37 | the longest prefix of the symbol field without a zero byte |
| Sharding.Hash | include/sharding.hpp:13-20 | the byte loop computes 64-bit FNV-1a |
| Sharding.KnownHash | include/sharding.hpp:13-20 | the hashes of "a" and "fo" are the published ones |
| Sharding.EveryByteCounts | include/sharding.hpp:13-20 | two symbols that differ in exactly one byte never have the same hash |
| Sharding.ShardFor | include/sharding.hpp:25-27 | the shard is in range |
| Sharding.ShardIsRemainder | include/sharding.hpp:25-27 | the hash is a multiple of the shard count and the shard |
| Sharding.KnownShard | include/sharding.hpp:25-27 | of three shards the last owns "fo", and of five |
| Shard.SymbolOf | include/order.hpp:35-37 | the bytes of an order's symbol field before the first zero byte, or all of them |
| Shard.SameSymbol | include/order.hpp:35-37 | two orders have one symbol if and only if their symbol fields agree up to where both end |
| Shard.DifferentSymbols | include/order.hpp:35-37 | a byte that differs before both fields end makes two symbols |
| Shard.SymbolsAreIndependent | src/engine_main.cpp:86-108 | for every log and symbol, the symbol's engine and trades are those of one engine fed that symbol's records alone |
| ShardTrades.TradesAreOfRecords | src/engine_main.cpp:86-117 | every trade of a log is of two of its records with the same symbol bytes: the later took from the earlier, at the earlier one's price and within both limits |
| ShardTrades.TenPercentCollar | include/matching_engine.hpp:23 | after any log, a LIMIT order of a symbol last traded at p is rejected exactly below 0.9 p and above 1.1 p |
| ShardRouter.ShardRouterQueue.constructor | include/shard_router_queue.hpp:23-30 | the router holds the first `num_shards` logs in order and leaves their records alone |
| ShardRouter.ShardRouterQueue.Push | include/shard_router_queue.hpp:32-35 | appends to the log of the symbol's shard and to no other |
| ShardRouter.ShardRouterQueue.PushAll | include/shard_router_queue.hpp:32-35 | each log grows by exactly the orders routed to it, in order |
| ShardRouter.ShardingPreservesMeaning | include/shard_router_queue.hpp:32-35 | when gateways agree on a symbol's shard, that shard gives the symbol the book and trades of one engine fed its orders in push order |
| ShardRouter.ShardCountDoesNotMatter | include/sharding.hpp:22-27 | a symbol's book and trades do not depend on the number of shards |
| ShardRouter.GatewayOrderKept | include/log_backed_order_queue.hpp:44-50 | in the shard's log each gateway's orders of a symbol keep that gateway's order |
| ShardRouter.OneBookIffAgreement | src/engine_main.cpp:88-98 | no second book for a symbol exists on another shard if and only if all gateways agree on its shard |
| EndToEnd.ClientToTrades | src/gateway_main.cpp:22-40 | from a client's bytes, cut anyhow, over any number of shards, to the book and trades of one engine fed that symbol's orders as sent |
| EndToEnd.ClientsToTrades | src/gateway_main.cpp:22-40 | with any number of clients, on new or reused descriptors, a symbol has the book and trades of one engine on the queue, in which each descriptor's orders are those its clients sent, client by client, each up to where it was cut off |
| LogCursor.DeliversPieces | include/log_backed_order_queue.hpp:81-100 | over every run with crashes between any two file operations, each process delivers a contiguous piece of the log from the offset it recovered |
| LogCursor.RecoveredAfterCrash | include/log_backed_order_queue.hpp:119-135 | the recovered offset is zero, the old or the new one by how far `pop` was; it is where delivery stopped if and only if the crash came at a safe point |
| LogCursor.SafeCrashesDeliverPrefix | tests/test_log_backed_queue.cpp:35-69 | with crashes at safe points only, all processes together deliver a prefix of the log |
| LogCursor.ExactlyOnceDelivery | include/log_backed_order_queue.hpp:27-31 | in every run the log holds what it held and what was appended since, and delivery is in order and exactly once if and only if the pieces are contiguous |
| LogCursor.TornCheckpointReplays | include/log_backed_order_queue.hpp:128-135 | a crash after truncating the checkpoint delivers the first record twice |
| LogCursor.LateCrashSkips | include/log_backed_order_queue.hpp:92-94 | a crash after saving the checkpoint and before returning never delivers the record |
| LogCursor.PathsDiffer | include/log_backed_order_queue.hpp:57-59 | distinct consumer ids have distinct checkpoint files |
| LogCursor.EachReaderAlone | include/trade_log.hpp:54-56 | in every run of many readers, each sees a run of its own cursor and nothing of the others |
| LogCursor.LogReader.constructor | include/log_backed_order_queue.hpp:57-64 | a reader starts at the recovered offset |
| LogCursor.LogReader.Poll | include/log_backed_order_queue.hpp:81-100 | a turn delivers the record at the offset exactly when there is one, as the four steps of the cursor; reports drained exactly after shutdown with nothing unread |
| LogCursor.LogReader.Shutdown | include/log_backed_order_queue.hpp:102-104 | sets the flag under which `Poll` reports drained, and nothing else |
| LogCursor.LogReader.Drain | include/log_backed_order_queue.hpp:79-100 | after shutdown the pop loop still delivers every unread record, in order, and then ends |
| LogCursor.LogFile.Push | include/trade_log.hpp:47-52 | a record is appended at the end and nothing else changes |
| Spans.ExactlyOnce | src/engine_main.cpp:66-122 | spans visit 0, 1, 2 and so on exactly once in order if and only if each non-empty one starts where the one before ended |
| Spans.VisitedAsCovered | src/engine_main.cpp:66-122 | a position is visited as often as spans cover it |
| Spans.ContiguousPositions | src/engine_main.cpp:66-122 | contiguous spans visit exactly the positions up to where the last one ends |
| ShardLeaderLocks.ShardLeaderLock.TryAcquire | include/shard_leader_lock.hpp:32-39 | succeeds exactly when nobody else holds the lock, idempotently; the cached flag matches the lock |
| ShardLeaderLocks.ShardLeaderLock.Close | include/shard_leader_lock.hpp:26-28 | releases its own lock and no other |
| ShardLeaderLocks.Takeover | tests/test_failover_and_pubsub.cpp:33-48 | a standby is refused while the holder lives and succeeds on its next try once it is gone |
| Failover.AlwaysInv | src/engine_main.cpp:66-122 | every run keeps the failover invariant, whatever dies when and wherever replicas start |
| Failover.LogAndReplicas | src/engine_main.cpp:59-70 | in every run the log is the records written, and the replicas alive are exactly those launched and not dead since, each with the offset it was launched at |
| Failover.OneLeaderPublishes | src/engine_main.cpp:66-117 | in every run at most one replica is active, and the topic is one contiguous segment per tenure, each from a record boundary of its replica's stream |
| Failover.ReplicasAgree | src/engine_main.cpp:100-108 | replicas that started at the same offset and got equally far have the same engines |
| Handovers.FailoverExactly | src/engine_main.cpp:66-122 | with fresh checkpoints, each trade of the canonical stream is published once per tenure that covers it, and the topic is a gapless prefix without repeats if and only if the tenures are contiguous |
| Handovers.TimesPublished | src/engine_main.cpp:100-117 | with fresh checkpoints, each result of each record is in the topic once for every tenure that had started by that record and stopped after that result |
| Handovers.Handover | src/engine_main.cpp:78-84 | for any two tenures in a row, of the results from the old leader's first record to where the new one stopped, both publish exactly those from where the new one began to where the old one stopped, and neither exactly those from where the old one stopped to where the new one began |
| Handovers.CleanIsContiguous | src/engine_main.cpp:78-84 | if each new leader's first record is where the old one stopped between two records, tenures are contiguous |
| Handovers.CleanTopic | src/engine_main.cpp:66-122 | then the topic is exactly the results of the records the last leader finished, and those it published of the next |
| Handovers.LockStaysFree | src/engine_main.cpp:76-84 | once all replicas have read the log to its end and nobody holds the lock, nothing the replicas do changes lock, topic or tenures until a record is appended or a process started |
| Handovers.TakeoverAt | src/engine_main.cpp:76-84 | while all replicas wait for a record or have only popped it and the lock is free, in every continuation without new processes either nothing was published and no tenure opened, or the next tenure starts with that record |
| Handovers.TakeoverNeedsRecord | src/engine_main.cpp:76-84 | in every run in which all replicas have caught up and the leader dies, in every continuation without new processes either nobody has taken over and the topic is as the leader left it, or a record was appended and the next tenure starts with it; a replica that has popped it and tries the free lock leads |
| StandbyAhead.StandbyAheadLosesResults | src/engine_main.cpp:78-110 | for any service and any log with results, a run in which the standby overtakes the leader, the leader dies and the standby publishes: the topic starts with the next record's result and no result of the log is in it |
| StandbyAhead.StandbyFrom | src/engine_main.cpp:77-108 | in any state with a leader, a replica launched at any offset of the log serves the records from there on, from empty engines, and changes nothing else |
| StandbyAhead.StandbyServesFirst | src/engine_main.cpp:77-108 | its first record is the one at that offset |
| SoloRun.AloneState | src/engine_main.cpp:59-122 | for any service, log and offset: a replica launched there and left alone leads, holds the engines of the records from there on, and the topic is their results, all of them and each once |
| LostTrades.LostTrade | src/engine_main.cpp:78-117 | with matching engines and two crossing orders, that run publishes the second trade of the log and never the first |
| Failover.LateIsSegment | src/engine_main.cpp:100-117 | what a leader publishes from its first record on is its tenure's segment |
| EngineTables.EngineTable.TryEmplace | src/engine_main.cpp:103 | makes a fresh engine object for a symbol without one and leaves the others alone |
| EngineTables.EngineTable.Serve | src/engine_main.cpp:103-112 | on engine objects that share nothing, emplacing and submitting changes the engines and makes the trades as one step of the shard |
| EngineProcesses.EngineProcess.constructor | src/engine_main.cpp:63-70 | a process starts without engines, and active exactly when nobody else holds the lock |
| EngineProcesses.EngineProcess.Handle | src/engine_main.cpp:78-121 | the loop body takes the lock exactly when nobody else holds it, always applies the record, and publishes its trades exactly when it holds the lock |
| EngineProcesses.EngineProcess.Turn | src/engine_main.cpp:77-121 | a turn pops exactly when there is a record and handles it, whatever the other processes appended to the log, published or did to the lock meanwhile; the loop ends exactly after the signal with nothing unread |
| EngineProcesses.EngineProcess.Consume | src/engine_main.cpp:76-122 | whatever is appended and published by others while it runs, whoever else holds the lock when, and whenever the signal comes: the loop ends with the log read to its end, the engines of a full replay of it, leader from the first record at which the lock was free, and has published exactly the results from there on, behind all that others published in its time as a standby |
| EngineProcesses.ServesTheShard | src/engine_main.cpp:103-108 | what the process computes and publishes is what the replicas of the failover model do |
| ShardFailover.ReplicaComputesShard | src/engine_main.cpp:68-108 | a replica from a fresh checkpoint computes the engines and the trade stream of the log |
| ShardFailover.RestartedComputesShard | src/engine_main.cpp:59-108 | from any saved offset, it computes those of the log from there on |
| ShardFailover.WarmReplicas | src/engine_main.cpp:100-108 | in every run each replica that was launched and has not died since, active or standby, holds for each symbol the book of one engine fed that symbol's orders, of the records written, from the offset it was launched at to where it has got |
| ShardFailover.RestartKeepsNewSymbols | src/engine_main.cpp:100-108 | a replica that resumed at its checkpoint always has the book of a fresh one for a symbol that had not occurred before |
| ShardFailover.RestartForgets | src/engine_main.cpp:59-108 | for a symbol that has not come up since it resumed, it has the engine of a new symbol, and a fresh replica has the same but for times if and only if at the saved offset nothing rested and nothing had been traded |
| ShardFailover.RestartKeepsBlank | src/engine_main.cpp:59-108 | in that case it has the fresh replica's book and last price ever after, and makes the same trades, but for times |
| ShardFailover.RestartRightIff | src/engine_main.cpp:59-108 | for a replica launched at any offset and one launched at the start, in runs on any log: their books and last prices for a symbol are the same all along, but for times, if and only if at that offset nothing of the symbol rested and nothing had been traded |
| ShardFailover.RestartInRuns | src/engine_main.cpp:59-108 | the same of any two such replicas in one run, with whatever else happening, once they have got equally far: the condition suffices, and is needed as long as the symbol has not come up again |
| Exchange.ClockCounts | src/matching_engine.cpp:27-84 | over any list of submissions the clock advances once per submission, rejected or not, and once per trade |
| LostTrades.RestartMissesTrade | src/engine_main.cpp:59-108 | with two crossing orders, a replica launched between them publishes no trade and lets the second rest, while one launched at the start publishes their trade and holds the rest of the first |
| ShardFailover.CleanFailoverPublishesTrades | src/engine_main.cpp:66-122 | with fresh checkpoints and clean handovers the topic is exactly the trades of the records the last leader finished, and of the next one those it published |
| ShardTrades.TopicTradesAreOfRecords | src/engine_main.cpp:66-122 | in every run, whatever crashes, takes over or restarts from whichever offset, each trade on the topic is of two written records with the same symbol bytes, the later taking from the earlier at its price |
| OrderPool.Pool.constructor | include/order_pool.hpp:15-20 | every slot is free and listed once |
| OrderPool.Pool.Acquire | include/order_pool.hpp:23-26 | fails exactly when all slots are out, otherwise hands out a slot nobody holds |
| OrderPool.Pool.Release | include/order_pool.hpp:29-32 | a held slot becomes free again; the bound assertion cannot fail |
| OrderPool.FullMeansAllFree | include/order_pool.hpp:30 | a free list as long as the storage leaves nothing outstanding |

## Left out

- Weak memory orders, cache lines, yields and spin counts of the ring; its steps are sequentially consistent.
- 64-bit wrap-around of ring counters, timestamps, ids and quantities.
- IEEE behaviour of `double` prices (NaN, signed zero, rounding of the band); the frame's price bits are read by a parameter.
- epoll, sockets, the stop pipe, signals and argument parsing; the events and what `recv` returned are parameters.
- File and lock system calls: record appends are atomic, fsync is durable, flock is exclusive and released on death; failing to open a file is not modelled.
- Sleeping and blocking: `LogReader.Poll` is one turn of the polling loop of `pop`.
- How the topic relates to the canonical stream when some leader had restarted from a non-zero checkpoint, beyond `Failover.OneLeaderPublishes` (its segment is then of the stream of the log from there on) and `ShardTrades.TopicTradesAreOfRecords`: the code promises nothing.
- The ring, and the replicas as a group, are modelled on values, as state machines over their atomic steps; one replica as objects in the heap is `EngineProcess`, where the other processes appear only as what they do to the log, the topic and the lock.
- The warning that `engine_main` prints for a symbol of another shard, and its other output.
- `MutexOrderQueue`: a plain queue under a mutex, with no claim on wake-ups.
- Distribution quality of FNV-1a.
- `dump`, `to_string`, the wire structs for trades and rejections (never sent), the benchmarks, the Python clients and the subscriber demo.
