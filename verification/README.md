# Limit-order book model

A Dafny model of the two sequential matching engines of this repository, and of the
per-symbol bookkeeping around the second one.

- **Indexed engine** (`orderBook_core.cpp`, module `IndexedBook`).
  - Every incoming order is first queued at the tail of its price level and indexed by id.
  - The book is then matched: the front order of the best bid level is crossed against the front order of the best ask level until the best bid is below the best ask.
  - A FillAndKill remainder is cancelled afterwards.
  - Cancel removes an order from its level, from the index, and erases the level if that empties it.
  - `size` is the size of the index.
- **Aggressor engine** (`orderBook.cpp`, class `Orderbook`, module `AggressorBook`).
  - The incoming order walks the opposite side best-first while its limit reaches the best level.
  - It trades against that level's front order, at the level's price.
  - A filled resting order is popped, and an emptied level is erased.
  - A GTC remainder rests at the tail of its own level.
  - An IOC order that cannot match at all is dropped before anything happens.
  - The module also models the queries `bestBid`/`bestAsk`, `restingOrders`, `topBids`/`topAsks`, and the ask ladder built by `seedAsks`.
- **Markets** (`orderBook.cpp`, module `MarketSim`).
  - `Market` holds a book, a tape of the 12 most recent trades (newest first) and a trade counter.
  - The step a simulation thread performs under the market's lock is one method, `Submit`. It adds the order, counts the trades and pushes them onto the tape.
  - `SymbolManager` builds one seeded market per symbol and clamps the active index.
- **Functional scenario** (`orderBook_bench.cpp`, `runBasicTests`, module `BasicTests`): the scenario replayed on the indexed engine.

How the code is represented:
- Both engines keep a side in a `std::map` from price to a FIFO `std::list`.
- Here a side is a sequence of `Level`s sorted best-first, with no empty level (module `Levels`). This is the order in which the C++ code iterates the map.
- All updates of a side go through one function, `SetQueue`. It stores a queue at a price, inserting the level at its sorted place or erasing it when the queue is empty. The aggressor engine's matching pass uses `ReplaceFront`, which is defined as `SetQueue` at the best price.
- In the indexed engine the queues hold ids, and `lookup` owns the orders. The C++ index from id to `Order*` and list iterator becomes a `map<OrderId, Order>`, so a fill through the `Order*` is an update of `lookup`.
- The objects the C++ code updates in place are classes whose methods are proved against the pure functions of the model:
  - `IndexedBook.Orderbook` and `AggressorBook.Orderbook` (their `while` loops carry the invariants);
  - `MarketSim.Market` and `MarketSim.SymbolManager`.

Trade prices in the indexed engine:
- `orderBook_core.cpp:45` records the bid half at the bid order's own price and the ask half at the ask order's own price, not one execution price at the resting order's price.
- The model follows the code. `MatchStep` states that the bid half's price is at least the ask half's. `BasicTests.CrossAdd` shows the bench scenario producing a trade whose halves record 100 and 99.

## Model

| member | source | states |
|---|---|---|
| Levels.SetQueue | orderBook_core.cpp:28-29 | writing a price's queue keeps the side sorted best-first with no empty level, and the best price is the one written or no better than before |
| Levels.SetQueueAt | orderBook_core.cpp:72-73 | `side[p]` then `push_back`/`erase`: the queue at the written price becomes the new queue and every other price's queue is unchanged |
| Levels.FrontIsBest | orderBook_core.cpp:35-36 | `begin()` is the best level: every price with orders is the front price or ranked behind it |
| IndexedBook.MakeOrder | orderBook_core.cpp:61-63 | a new order has `initial == remaining == qty` and the given type, id, side and price |
| IndexedBook.Fill | orderBook_core.cpp:17-20 | overfill is refused exactly when `q > remaining`; otherwise only `remaining` changes and it drops by exactly `q` |
| IndexedBook.Order.Filled | orderBook_core.cpp:16 | `filled()`: nothing remains; its contract is carried by `MakeOrder` (a new order of positive quantity is not filled) and `FillFrontSide` (a front order leaves its side exactly when a fill makes it filled) |
| IndexedBook.FillAllConserves | orderBook_core.cpp:16-20 | a run of fills succeeds iff the total is at most `remaining`, and then `remaining` drops by the total, so `0 <= remaining <= initial` |
| IndexedBook.QueuedOnce | orderBook_core.cpp:28-30 | under the invariant (queued ids are exactly the index keys, each at its own side and price) an id is queued at most once |
| IndexedBook.FrontId | orderBook_core.cpp:39-40 | the front of the best level is an indexed order of that side, priced at that level |
| IndexedBook.FillFront | orderBook_core.cpp:41-51 | filling one front order changes the index only by that fill (a filled order leaves it) and leaves the other side untouched |
| IndexedBook.FillFrontInv | orderBook_core.cpp:47-51 | popping a filled front and erasing an emptied level keeps the book invariant |
| IndexedBook.FillFrontSide | orderBook_core.cpp:47-51 | the filled side loses its front order exactly when that order is filled |
| IndexedBook.MatchStep | orderBook_core.cpp:35-51 | one pass trades the two fronts for `min` of their remaining, both halves for that quantity, the bid half at the best bid's price and the ask half at the best ask's, bid price >= ask price; the index shrinks |
| IndexedBook.MatchStepConserves | orderBook_core.cpp:41-48 | a pass takes the trade's quantity from each of its two orders and from no other order; the trade pairs an indexed buy with an indexed sell at their own prices |
| IndexedBook.MatchStepFrontOnly | orderBook_core.cpp:39-43 | time priority: an order that is not at a front is neither filled nor removed by a pass |
| IndexedBook.MatchAll | orderBook_core.cpp:32-54 | matching ends (the index shrinks each pass) with the book uncrossed and the invariant kept |
| IndexedBook.MatchAllConserves | orderBook_core.cpp:32-54 | for every order, what it has left plus what it traded equals what it had; orders only leave the index; every trade is between indexed orders at their own prices |
| IndexedBook.Insert | orderBook_core.cpp:71-81 | the new order is appended at the tail of its price's queue and indexed; nothing else changes |
| IndexedBook.Remove | orderBook_core.cpp:103 | erasing at the stored iterator takes one occurrence of the id out of the queue (multiset minus the id), and leaves a queue without the id unchanged |
| IndexedBook.RemoveAtFirst | orderBook_core.cpp:103 | the occurrence erased is the first one, at index `k`: the result is `q[..k] + q[k+1..]`, so the orders before and behind it keep their order |
| IndexedBook.Cancel | orderBook_core.cpp:94-117 | an unknown id changes nothing; a known one leaves the index and its queue (others keep their order), the other side and other prices are untouched, and an uncrossed book stays uncrossed |
| IndexedBook.CancelTwice | orderBook_core.cpp:95-96 | cancelling twice is cancelling once |
| IndexedBook.Add | orderBook_core.cpp:65-92 | a duplicate id gives no trades and an unchanged book; otherwise the result is uncrossed and a FillAndKill order has nothing left resting |
| IndexedBook.AddConserves | orderBook_core.cpp:65-92 | every other order keeps what it did not trade; a GoodTillCancel order's trades plus its resting remainder equal its quantity; a FillAndKill order rests with nothing |
| IndexedBook.FakNeverRests | orderBook_core.cpp:88-90 | a FillAndKill order with positive quantity is not in the index after `AddOrder` |
| IndexedBook.AddKeepsLive | orderBook_core.cpp:47-48 | a fill to zero always removes, so a book whose orders all have quantity left keeps that property |
| IndexedBook.UncrossedPrices | orderBook_core.cpp:34-37 | in an uncrossed book every resting buy is priced below every resting sell |
| IndexedBook.AddTradesInvolveIncoming | orderBook_core.cpp:84-85 | on an uncrossed book every trade `AddOrder` reports has the new order in its own half |
| IndexedBook.ResidentCount | orderBook_core.cpp:119 | the index holds exactly as many orders as the queues |
| IndexedBook.Orderbook.constructor | orderBook_core.cpp:58 | a new book is empty and valid |
| IndexedBook.Orderbook.Match | orderBook_core.cpp:32-54 | the `while` loop computes `MatchAll`: the same trades, in order, and the same final book |
| IndexedBook.Orderbook.MatchFronts | orderBook_core.cpp:35-51 | one loop body, written as the C++ code does it (both fills, the trade, then erase and pop), computes `MatchStep` |
| IndexedBook.Orderbook.CancelOrder | orderBook_core.cpp:94-117 | the new state is `Cancel` of the old one |
| IndexedBook.Orderbook.AddOrder | orderBook_core.cpp:65-92 | the new state and the trades are `Add` of the old state, and the book stays valid and uncrossed |
| IndexedBook.Orderbook.Size | orderBook_core.cpp:119 | `size()` equals the number of queued orders on both sides |
| BasicTests.RestsOnEmpty | orderBook_bench.cpp:15-17 | a GoodTillCancel buy on an empty book trades nothing and becomes the only level and index entry |
| BasicTests.CrossAdd | orderBook_bench.cpp:19-22 | sell 99x10 against the resting buy 100x10 gives exactly one trade (bid 1 at 100, ask 2 at 99, qty 10) and an empty book |
| BasicTests.RunBasicTests | orderBook_bench.cpp:11-31 | the scenario on an `Orderbook` object: 0 trades, then 1 trade, then size 0 after adding and cancelling order 3 |
| AggressorBook.MatchableMeans | orderBook.cpp:63-66 | `matchable` holds exactly when some opposite level lies within the order's limit |
| AggressorBook.Matchable | orderBook.cpp:63-66 | `matchable`: the opposite side has a best level and its price is within the limit; `MatchableMeans` states what that means for the whole side |
| AggressorBook.Event | orderBook.cpp:81 | the trade a pass pushes: the incoming order's id in its own half and the resting order's id in the other (bid id first, as line 93 does for a sell), at the level price, for the traded quantity, with the incoming side as aggressor |
| AggressorBook.Pass | orderBook.cpp:76-82 | one loop body keeps the side sorted with no empty level, and a pass that leaves the incoming order something shrinks the side; what it trades and changes is stated by `PassFacts` and `PassFlatten` |
| AggressorBook.PassFacts | orderBook.cpp:76-82 | a pass trades `min(o.rem, top.rem)` against the front order at the level's price, bid id first, the incoming side as aggressor; the side after the pass is no better than before |
| AggressorBook.PassFlatten | orderBook.cpp:76-82 | only the front changes: the side read front to back is the old one with its first order reduced by the traded quantity, or without it when it has nothing left (`pop_front`, and `erase` of an emptied level) |
| AggressorBook.Sweep | orderBook.cpp:75-84 | the loop keeps the side sorted with no empty level, and ends because each pass pops an order or uses up the incoming one |
| AggressorBook.SweepEnds | orderBook.cpp:75-84 | the loop stops with the order used up, the side empty or the best level out of reach; the best price gets no better; every trade has the incoming order as aggressor in its own half |
| AggressorBook.SweepConserves | orderBook.cpp:79-80 | the incoming order's trades plus its remainder equal its quantity, and the opposite side loses exactly the traded volume |
| AggressorBook.SweepFifo | orderBook.cpp:77-82 | time priority: the i-th trade is against the i-th resting order best level first, every trade but the last fills its order completely, and the rest of the side is what is left, led by the last order reduced by its fill exactly when that fill left it something |
| AggressorBook.SweepPrices | orderBook.cpp:75-81 | every trade is at a price within the limit where the side had a level, and the side keeps each order at its own price |
| AggressorBook.SweepPricesOwn | orderBook.cpp:76-81 | each trade is priced at its resting order's own limit |
| AggressorBook.RunSweep | orderBook.cpp:75-84 | the loop of `add` computes `Sweep` |
| AggressorBook.RunPass | orderBook.cpp:76-82 | the loop body computes `Pass` and only lowers the incoming order's `rem` |
| AggressorBook.Enqueue | orderBook.cpp:67-70 | `enqueue` appends the order at the tail of its price's queue and changes no other price |
| AggressorBook.Aggress | orderBook.cpp:60-100 | `add` keeps the book invariant |
| AggressorBook.IocUnmatched | orderBook.cpp:72 | an IOC order with no opposite level within its limit trades nothing and leaves the book as it was |
| AggressorBook.AddConserves | orderBook.cpp:74-98 | trades use at most the order's quantity, the opposite side loses exactly what was traded, and the own side changes only by the GTC remainder at the tail of its price |
| AggressorBook.AggressParts | orderBook.cpp:74-98 | when the order is not dropped, the trades and the opposite side are the sweep's, and the own side gains the remainder only for GTC |
| AggressorBook.AddTrades | orderBook.cpp:81-93 | every trade has the incoming order as aggressor in its own half and is priced at an opposite level within the order's limit |
| AggressorBook.AddKeepsUncrossed | orderBook.cpp:74-98 | an uncrossed book stays uncrossed after `add` |
| AggressorBook.TopLevels | orderBook.cpp:119-134 | the first `min(N, levels)` levels best-first, each with the total `rem` at its price |
| AggressorBook.Seeded | orderBook.cpp:102-107 | the ladder built by `seedAsks` keeps the ask side sorted with no empty level |
| AggressorBook.SeededInv | orderBook.cpp:102-107 | `seedAsks` keeps the book invariant |
| AggressorBook.SeedLadder | orderBook.cpp:102-107 | on an empty ask side, `seedAsks(n, qty)` builds one level per price `100 + i`, holding the single order `100000 + i` |
| AggressorBook.Orderbook.constructor | orderBook.cpp:54-58 | a new book is empty and valid |
| AggressorBook.Orderbook.Add | orderBook.cpp:60-100 | the new state and the trades are `Aggress` of the old state; an uncrossed book stays uncrossed |
| AggressorBook.Orderbook.SeedAsks | orderBook.cpp:102-107 | the loop leaves the bids alone and computes `Seeded` on the asks |
| AggressorBook.Orderbook.BestBid | orderBook.cpp:109 | 0 for no bids, otherwise a price with bids that is at least every bid price |
| AggressorBook.Orderbook.BestAsk | orderBook.cpp:110 | 0 for no asks, otherwise a price with asks that is at most every ask price |
| AggressorBook.Orderbook.RestingOrders | orderBook.cpp:112-117 | the number of queued orders on both sides |
| AggressorBook.Orderbook.TopBids | orderBook.cpp:119-126 | the `min(N, levels)` best bid levels, highest first, each with its total `rem` |
| AggressorBook.Orderbook.TopAsks | orderBook.cpp:127-134 | the `min(N, levels)` best ask levels, lowest first, each with its total `rem` |
| MarketSim.TapeWindow | orderBook.cpp:218-223 | the tape after pushing trades is the newest `MAX_TAPE` of (new trades, last first) followed by the old tape |
| MarketSim.PushTrade | orderBook.cpp:220-221 | `push_front` then `pop_back` past `MAX_TAPE`: the new trade is in front, the old tape follows, and the length grows by one until it reaches `MAX_TAPE` |
| MarketSim.PushTrades | orderBook.cpp:219-222 | pushing trades in order onto a tape within `MAX_TAPE` keeps it within `MAX_TAPE`, with the last trade in front; `TapeWindow` gives the whole tape |
| MarketSim.TapeBounded | orderBook.cpp:218-223 | the tape never exceeds `MAX_TAPE`, the newest trade is in front, and the old tape follows the new trades as far as room allows |
| MarketSim.SimOrderNeverRests | orderBook.cpp:292-293 | a simulated IOC order leaves its own side unchanged and trades at most its 10 units |
| MarketSim.SimOrder | orderBook.cpp:292-293 | the order of a simulation step: the given id and side, IOC, 10 units, at a price in `[100 + seedSkew, 130 + seedSkew)`; `SimOrderNeverRests` states what submitting it does |
| MarketSim.Clamp | orderBook.cpp:162 | `max(lo, min(x, hi))` lies in `[lo, hi]` and equals `x` inside it |
| MarketSim.Market.constructor | orderBook.cpp:138-143 | a new market has an empty book and tape and no trades |
| MarketSim.Market.AddTradesToTape | orderBook.cpp:218-223 | the loop computes `PushTrades` and leaves the counter alone |
| MarketSim.Market.Submit | orderBook.cpp:291-295 | the book does `add`, `tradeCount` grows by the number of trades, and the tape is the old tape with the trades pushed |
| MarketSim.SeededMarket | orderBook.cpp:154-155 | a new market seeded with `seedAsks(n, qty)` has no bids, the ask ladder, an empty tape and no trades |
| MarketSim.SymbolManager.constructor | orderBook.cpp:152-158 | one market per symbol, each opened with the ladder of `seedAsks(15, 20)`, no two symbols sharing a market or a book (each is its own `unique_ptr`), and the active index 0 |
| MarketSim.SymbolManager.ActiveSymbol | orderBook.cpp:160-164 | always one of the symbols: the indexed one when in range, otherwise the first or the last |
| MarketSim.SymbolManager.ActiveMarket | orderBook.cpp:165-167 | the market of the active symbol exists and is valid |

## Left out

- Threads, the `mutex` of `Market` and the `atomic` active index. The locked region of the simulation loop is one sequential method, and the index is a plain field.
- `now_ns()`: one timestamp is a parameter of each `add`, while the C++ code reads the clock once per trade.
- The UI: `printMarketSnapshot`, `displayLoop`, `inputLoop` (keyboard commands, the prices it derives, the aggressor it overwrites) and all sleeps.
- `marketSimLoop`'s control: the endless loop, `flip` and the id counter. Only one locked step (`Submit` with `SimOrder`) is modelled.
- The benchmark and stress programs: timing, percentiles, threads, process APIs and CSV output. orderBook.hpp is a placeholder interface and is not part of this model.
- Memory management in orderBook_core.cpp: `new`/`delete`, the pImpl indirection and the filled orders the matching loop leaks. Orders are values keyed by id.
- `std::list` iterators: the C++ code erases an order at its stored iterator. The model finds the id in its queue (`Remove`), and the invariant makes that the same element.
- Fixed-width integers: prices are `int` and quantities, ids and counters are `nat`.
  - `int32_t` and `uint32_t` overflow is not modelled. For example, the `Qty` sum in `topBids` cannot wrap here. The one exception is the `(Qty)qty` conversion in `seedAsks`, which is modelled as `qty % 2^32`.
- AggressorBook.Orderbook.TopBids: states untruncated level volumes (and so does `TopAsks`), because `Qty` sums are taken as unbounded.
- Default arguments: `topBids`/`topAsks` (`N = 5`) and `seedAsks` (`levels = 10`, `qty = 10`) are explicit parameters here. The only calls that rely on a default are `topBids()`/`topAsks()` in `printMarketSnapshot`, which is not modelled; `seedAsks` is always called with `(15, 20)`.
- MarketSim.Market.Submit: `tradeCount` is a `nat`, so the 64-bit counter's wrap-around is not modelled.
- The aggressor engine does not check ids for uniqueness, and neither does its model. Its properties hold for any ids.
- Orders of quantity 0 are accepted by both engines, as in the source. Properties that need a positive quantity (`FakNeverRests`, `AddKeepsLive`) take it as a hypothesis.
