# Order manager, statistics counter, careers page and hero banner

This project models four parts of the repository in Dafny.

- **The Flattrade order manager** (`omsflatradejiddi.py`, class `OrderManager`).
  - It keeps a queue of orders to place, stop-loss orders, open orders, errored orders and a set of outstanding barrier ids.
  - `process_new_orders` pops at most 100 orders per cycle. A queued barrier holds the queue back while any barrier is outstanding.
  - `exit_orders` splits a batch by priority. It closes each non-empty group with a barrier and puts both groups in front of the queue.
  - `process_sl_orders` exits triggered stop-loss orders, sweeping from the newest to the oldest.
  - `process_open_orders` drops orders that the broker reports as terminal. A fill can create a stop-loss order.
  - Websocket order updates set the filled quantity and the status.
  - `eod` flushes the queues.
  - The module `OrderModel` holds the order records and the payload `place_order` sends.
  - `OrderBook` holds the manager's state as a value, with one function per operation and the lemmas about them.
  - `Oms.OrderManager` is the class whose methods update that state in place. Each method is proved equal to its `OrderBook` function, and each keeps the barrier invariant.
- **The statistics counter** (`components/sections/stats.tsx`).
  - A display value such as "₹470 Cr+" is split around its first run of digits.
  - The number shown climbs from 0 to the target along an ease-out-quart curve over 2000 ms.
- **The careers page** (`app/careers/page.tsx`).
  - Positions are grouped by department, and departments are listed in the order they first appear.
  - At most one position is expanded at a time.
  - There is a detail route per position and an application `mailto:` link whose body carries the position's code.
- **The hero banner** (`components/sections/hero.tsx`).
  - The index of the word shown rotates every two seconds.
  - Each word has a visibility flag and a vertical offset.
  - Each word is split at its spaces into parts separated by line breaks and spaces.

Module layout:
- `wrappers.dfy`: `Option` and `Result`.
- `seqs.dfy`: filtering, deletion at an index, reversal and occurrence of a subsequence.
- `decimal.dfy`: decimal digits, `str` of a natural number and its inverse.
- `order_model.dfy`, `order_book.dfy` and `oms.dfy`: the order manager.
- `stats.dfy`, `careers.dfy` and `hero.dfy`: the three components.

Modelling decisions:
- Real-world inputs become parameters:
  - times are `real` seconds or milliseconds;
  - last traded prices are a map from instrument to price;
  - the broker's reports are a sequence of `BrokerOrder`s;
  - the nanosecond clock behind `generate_order_id` is a counter in the state.
- Order ids are therefore `"ORD_"` followed by the decimal of the counter, and distinct readings give distinct ids.
- Prices are integers.
- A `KniteOrder` is a value, so a change to one copy is not seen through another reference.
- `_barrier_orders` is initialised to the empty set, and `SIMULATED` and `BLOCK_ALL_ORDERS` are part of a configuration value.
- The broker calls are recorded rather than performed:
  - the `submitted` log lists every payload handed to the broker;
  - whether the broker call in `place_order` raises for an order is the configuration's predicate `brokerRaises`, so any verdict per order can be modelled;
  - the `failed` log lists every order that `process_new_order` hands to `handle_order_failure`. An order of an unknown type and an order whose broker call raises are marked REJECTED. A placed order with a stop price keeps its status. For that order, `fill_orders` reads `filled_qty` from what `place_order` returned, an order id or `None`, and raises. That handler is not defined in the file, so the model only records the hand-off.
  - after a placement, `fill_orders` has no other effect: without a stop price its condition fails before it reads the reply. So a placement never creates a stop-loss order.
- `fill_orders` raises for an order that has a stop price and a fill but no instrument (`None.get_ltp()`). The raise leaves `process_open_orders` before the order is deleted and before the later reports are looked at; the model reports it as `raised`.
- `stop_breached` starts False (omsflatradejiddi.py:641), and nothing in the file sets it to True. The model keeps it as an order field that the caller may set. So `process_sl_orders` exits an order only when code outside this file has marked it breached.
- A statistics value without a digit throws at stats.tsx:24, where `numberMatch![0]` dereferences the missing match. `Stats.Parse` returns `None` for such a value.

## Model

| member | source | states |
|---|---|---|
| OrderModel.NewKniteOrder | omsflatradejiddi.py:621-641 | A new order has the given id, type and product type and the creation time now. Its status is PENDING, its quantities and prices are zero and its exchange is NSE. It has no instrument and no parent, and every flag is false. |
| OrderModel.FreshOrderState | omsflatradejiddi.py:652-661 | A fresh order has not timed out under its timeout and is not open. It is a stop-loss order exactly when it was created with type SL. |
| OrderModel.CreateSlOrder | omsflatradejiddi.py:397-406 | The stop-loss order is of type SL and is linked to its parent. It carries the parent's instrument and quantity, is priced at the parent's stop price, and is pending and not a barrier. |
| OrderModel.MapOrderType | omsflatradejiddi.py:550-558 | The type map is defined exactly for LIMIT, SL and MARKET. Any other type raises (modelled as `None`). |
| OrderModel.RemoveAllAbsent | omsflatradejiddi.py:417 | `replace` leaves a symbol that does not contain the pattern unchanged. |
| OrderModel.StripsExchangePrefix | omsflatradejiddi.py:417 | A leading `MCX:` is stripped from the symbol. |
| OrderModel.RemovalIsSinglePass | omsflatradejiddi.py:417 | `replace` makes a single left-to-right pass. An occurrence that only forms once an inner one is removed survives. |
| OrderModel.PlaceOrderPayload | omsflatradejiddi.py:409-451 | A payload is built exactly for the known order types. Account fields, exchange and validity are fixed. The side is B exactly for a positive quantity. The quantity text is `str` of the absolute quantity, with no leading zeros. The symbol has `MCX:` removed, and the product type defaults to I. The price fields per type are: SL sets trigger and price to the price (or "0"); LIMIT sets the price only; MARKET sets price "0". The SL-M branch is unreachable. |
| OrderModel.ParseInt | omsflatradejiddi.py:195 | `int()` of a string of digits is its decimal value. |
| OrderModel.ParseIntRender | omsflatradejiddi.py:195 | `int()` inverts `str()` on integers, signed ones included. |
| OrderModel.ParseIntPadded | omsflatradejiddi.py:195 | ASCII whitespace (tab through carriage return, and space) before and after the text does not change what `int()` reads. |
| OrderModel.ParseIntSeparatorRefused | omsflatradejiddi.py:195 | The separator characters 0x1C to 0x1F are not whitespace to `int()`: a digit next to one is refused. |
| OrderModel.ParseIntGrouped | omsflatradejiddi.py:195 | Underscores between digits are dropped: "1_000" reads as 1000. |
| OrderModel.ParseIntSpaced | omsflatradejiddi.py:195 | A sign after leading whitespace is read, and trailing whitespace is dropped: " -5\n" reads as -5. |
| OrderModel.ParseIntBadUnderscores | omsflatradejiddi.py:195 | A doubled, leading or trailing underscore is refused. |
| OrderModel.WsStatusMapping | omsflatradejiddi.py:197-205 | REJECTED and CANCELLED map to REJECTED, COMPLETE to COMPLETE, OPEN and PENDING to OPEN. Any other report keeps the current status. Both directions are proved for REJECTED. |
| OrderBook.OrderIdsDistinct | omsflatradejiddi.py:678-680 | Ids made from different clock readings are different. |
| OrderBook.NewBarrier | omsflatradejiddi.py:367-373 | A barrier is a LIMIT order tagged BARRIER, with the barrier flag set, quantity zero and no high priority. |
| OrderBook.GetBarrierOrder | omsflatradejiddi.py:367-373 | The new barrier takes the next id, that id is added to the outstanding barriers and the clock moves on. Nothing else changes. |
| OrderBook.BarrierGate | omsflatradejiddi.py:360-364 | An ordinary order always passes the gate. A barrier passes exactly when no barrier is outstanding, so a barrier whose own id is registered never passes. |
| OrderBook.PrioritySplit | omsflatradejiddi.py:297-298 | The high- and low-priority groups partition the batch: their lengths add up to the batch's and each holds exactly the batch's orders of its priority. |
| OrderBook.ExtendLeftReversed | omsflatradejiddi.py:307-309 | `extendleft(reversed(xs))` puts `xs`, in its own order, in front of the queue. |
| OrderBook.ExitEnqueueQueue | omsflatradejiddi.py:294-309 | The queue becomes: the low-priority group and its barrier, then the high-priority group and its barrier, then the old queue. An empty group gets no barrier. Exactly the new barriers' ids are registered, and the clock moves on once per barrier. |
| OrderBook.ProcessNewOrder | omsflatradejiddi.py:339-357 | Placing one popped order changes neither the queue, the stop-loss and open orders, the errored orders nor the clock. |
| OrderBook.ProcessNewOrderEffect | omsflatradejiddi.py:339-474 | A barrier only discards its own id. An order with a non-positive quantity changes nothing. Any other order of a known type adds its payload to the broker log. The order is recorded as failed exactly when its type is unknown, the broker call raises for it, or it was placed with a stop price (then `fill_orders` raises). The failed entry is marked REJECTED exactly when `place_order` raised. |
| OrderBook.ProcessLoopPops | omsflatradejiddi.py:330-336 | The loop pops a FIFO prefix of at most k orders. It stops early only at a head that the barrier gate refuses. |
| OrderBook.ProcessNewOrdersEffect | omsflatradejiddi.py:325-336 | Under BLOCK_ALL_ORDERS or on an empty queue nothing changes. Otherwise a prefix of at most min(100, len) orders is popped, and exactly its submissions, failures and barrier ids are accounted for. An early stop leaves a refused head. While the invariant holds, no barrier is popped. |
| OrderBook.EmptyBookValid | omsflatradejiddi.py:31-57 | The start-up state satisfies the barrier invariant. |
| OrderBook.ProcessNewOrdersValid | omsflatradejiddi.py:325-336 | Processing the queue keeps the invariant (every queued barrier is registered and no stop-loss order is a barrier) and the registered set. |
| OrderBook.ExitOrdersValid | omsflatradejiddi.py:294-311 | Exiting a batch that contains no barrier keeps the invariant. |
| OrderBook.ExitOrdersHoldsBackPriority | omsflatradejiddi.py:294-311 | When a batch mixes both priorities, the low-priority block runs first and its barrier then stops the queue. After `exit_orders` returns, the queue still ends with that barrier, every high-priority order, their barrier and the old queue. |
| OrderBook.ProcessNewOrdersStopsAtBarrier | omsflatradejiddi.py:325-364 | While the invariant holds, processing the queue never gets past a queued barrier, so the queue still ends with that barrier and everything behind it. |
| OrderBook.ExitSingleOrder | omsflatradejiddi.py:294-311 | Exiting one ordinary order with placement enabled places exactly that order. Only its barrier is left in front of the old queue, and that barrier is registered. |
| OrderBook.SlVisit | omsflatradejiddi.py:215-220 | One visit of the reverse loop removes the order at that index exactly when it is breached and open. The open and errored orders are unchanged. |
| OrderBook.ProcessSlOrdersKeeps | omsflatradejiddi.py:210-220 | Exactly the breached-and-open stop-loss orders are removed. The rest stay in their original order, and the kept and removed counts add up to the old count. |
| OrderBook.ProcessSlOrdersEffect | omsflatradejiddi.py:210-220 | With placement enabled, the triggered orders are placed from the newest to the oldest. One barrier per exit is queued in front of the old queue. Every entry the sweep puts in front of the queue is a barrier whose id is registered. |
| OrderBook.ProcessSlOrdersValid | omsflatradejiddi.py:210-220 | The stop-loss sweep keeps the invariant. |
| OrderBook.FillOrders | omsflatradejiddi.py:376-394 | A fill raises exactly when the order has a stop price, something was filled and the order has no instrument. A fill that does not raise leaves the queue, the open and errored orders, the barriers and the logs unchanged. |
| OrderBook.FillOrdersEffect | omsflatradejiddi.py:386-394 | A stop-loss order is appended exactly when the order has a stop price, something was filled and the last traded price is known, non-zero and below the stop. The order appended is the stop-loss order for the filled one with the next id. Otherwise nothing changes. |
| OrderBook.ProcessOpenOrder | omsflatradejiddi.py:238-255 | The call raises exactly when the broker status is REJECTED or COMPLETE and the fill raises. Otherwise the result is true exactly on those two statuses, and no structure other than the stop-loss list changes. |
| OrderBook.FirstRaise | omsflatradejiddi.py:229-235 | The sweep's stopping point: no report before it raises, and the report at it, if any, does. |
| OrderBook.OpenSweepRaisedStays | omsflatradejiddi.py:229-235 | Once a fill has raised, further reports change nothing. |
| OrderBook.OpenSweepStep | omsflatradejiddi.py:229-235 | A raise at the next report ends the whole sweep with the state before that report. Otherwise the sweep goes on from the step's new state. |
| OrderBook.OpenSweepEffect | omsflatradejiddi.py:229-235 | The sweep raises exactly when some report raises. Over the reports before the first raise, it drops exactly the open orders reported as terminal and leaves every other entry as it was. It only appends stop-loss orders, which are SL orders and not barriers. |
| OrderBook.ProcessOpenOrdersEffect | omsflatradejiddi.py:223-235 | When simulated or with nothing open, nothing changes and nothing raises. Otherwise the open orders are the old ones minus the terminal reports before the first raise, and the sweep raises exactly when some report does. The invariant is kept. |
| OrderBook.ProcessErroredOrdersKeeps | omsflatradejiddi.py:258-268 | Exactly the errored orders at most five seconds old are kept. The filter distributes over every split of the list, so the kept orders stay in their order. |
| OrderBook.WsUpdate | omsflatradejiddi.py:189-205 | A websocket message never adds or removes an open order. |
| OrderBook.WsUpdateEffect | omsflatradejiddi.py:189-206 | Only an "om" message naming an open order changes anything, and only that entry. The filled-quantity text ("0" when absent) is read as `int()` reads it, so "-3", "007", " 5" and "1_0" are accepted. Text that `int()` refuses raises, and no order changes. Otherwise the named entry's filled quantity becomes the parsed number and its status is mapped. No other field changes. The decimal text of a natural number q sets q. |
| OrderBook.Eod | omsflatradejiddi.py:573-585 | The queue and the open orders are emptied and nothing else changes. |
| Oms.OrderManager.constructor | omsflatradejiddi.py:31-57 | Start-up: every structure is empty and the invariant holds. |
| Oms.OrderManager.GenerateOrderId | omsflatradejiddi.py:678-680 | The id is made from the current clock reading, and the clock then moves on. |
| Oms.OrderManager.GetBarrierOrder | omsflatradejiddi.py:367-373 | The new state and the barrier are those of `OrderBook.GetBarrierOrder`. |
| Oms.OrderManager.CanPlaceNewOrder | omsflatradejiddi.py:360-364 | The gate agrees with `OrderBook.CanPlaceNewOrder` on the object's state. |
| Oms.OrderManager.CreateSlOrder | omsflatradejiddi.py:397-406 | The new order is `OrderModel.CreateSlOrder` with the next id, and only the clock changes. |
| Oms.OrderManager.ProcessNewOrder | omsflatradejiddi.py:339-357 | The new state is `OrderBook.ProcessNewOrder` of the old one. |
| Oms.OrderManager.ProcessNewOrders | omsflatradejiddi.py:325-336 | The loop's new state is `OrderBook.ProcessNewOrders` of the old one, and the invariant is kept. |
| Oms.OrderManager.ExitOrders | omsflatradejiddi.py:294-311 | The new state is `OrderBook.ExitOrders` of the old one, and the invariant is kept for a batch with no barrier. |
| Oms.OrderManager.ProcessSlOrders | omsflatradejiddi.py:210-220 | The reverse index loop's new state is `OrderBook.ProcessSlOrders` of the old one, and the invariant is kept. |
| Oms.OrderManager.FillOrders | omsflatradejiddi.py:376-394 | It reports a raise exactly when `OrderBook.FillOrders` raises, and then the state is unchanged. Otherwise the new state is `OrderBook.FillOrders` of the old one. |
| Oms.OrderManager.ProcessOpenOrder | omsflatradejiddi.py:238-255 | The raise, the new state and the result are those of `OrderBook.ProcessOpenOrder` of the old state. |
| Oms.OrderManager.ProcessOpenOrders | omsflatradejiddi.py:223-235 | The sweep's new state and its raise are `OrderBook.ProcessOpenOrders` of the old state, and the invariant is kept. |
| Oms.OrderManager.ProcessErroredOrders | omsflatradejiddi.py:258-268 | The errored list is filtered as `OrderBook.ProcessErroredOrders` says, and the invariant is kept. |
| Oms.OrderManager.HandleWsMessage | omsflatradejiddi.py:189-205 | Only the open orders change, as `OrderBook.WsUpdate` says, and the invariant is kept. |
| Oms.OrderManager.Eod | omsflatradejiddi.py:573-585 | The new state is `OrderBook.Eod` of the old one, and the invariant is kept. |
| Stats.MatchDigits | components/sections/stats.tsx:20 | `value.match(/\d+/)` has no match exactly when the value has no digit. |
| Stats.IndexFrom | components/sections/stats.tsx:24-25 | `indexOf` finds an occurrence at or after the start position and passes none, or returns -1 when there is none. |
| Stats.Parse | components/sections/stats.tsx:20-25 | The parse fails exactly when the value has no digit. |
| Stats.ParseSplits | components/sections/stats.tsx:20-25 | A value with a digit parses into a prefix without digits, a digit run that is not extended on the right and a suffix. The three put together give the value, and the target is the run's decimal value. |
| Stats.ParseUnique | components/sections/stats.tsx:20-25 | Any such split of the value is the one the parse returns. |
| Stats.ParseRupees | components/sections/stats.tsx:7 | "₹470 Cr+" parses into "₹", 470 and " Cr+". |
| Stats.ParseFixture | components/sections/stats.tsx:8-11 | The other statistics parse to the targets 6, 3900, 3 and 260, with the suffixes "+", "K+", "+" and "+". |
| Stats.ProgressBounds | components/sections/stats.tsx:36 | Progress lies in [0, 1]. It is 1 exactly from 2000 ms on. |
| Stats.EaseMonotone | components/sections/stats.tsx:39 | The ease-out-quart curve stays in [0, 1] and never falls. |
| Stats.CountBounds | components/sections/stats.tsx:33-42 | The count shown lies between 0 and the target. |
| Stats.CountMonotone | components/sections/stats.tsx:33-42 | The count never falls as time passes. |
| Stats.CountAtStart | components/sections/stats.tsx:33-42 | The first frame shows 0. |
| Stats.CountComplete | components/sections/stats.tsx:33-47 | From 2000 ms on, the count is the target. |
| Stats.RenderedAtCompletion | components/sections/stats.tsx:54 | At completion the counter shows the original value, provided the digit run has no leading zero. |
| Stats.LeadingZeroDropped | components/sections/stats.tsx:21 | A run with a leading zero is shown without it at completion: "07+" ends as "7+". |
| Stats.CounterView.constructor | components/sections/stats.tsx:15 | The count starts at 0, with no start time and no frame requested. |
| Stats.CounterView.Start | components/sections/stats.tsx:27-31 | When in view, an animation starts with its start time unset and a frame requested. Otherwise nothing changes. |
| Stats.CounterView.Animate | components/sections/stats.tsx:33-49 | The first frame fixes the start time. The count is the eased count for the elapsed time: 0 on the first frame and within [0, target] afterwards. Another frame is requested exactly while less than 2000 ms have passed, and when none is requested the count is the target. |
| Careers.HowToApply | app/careers/page.tsx:50-204 | Each position's instructions quote its unique string right after the common opening sentence. |
| Careers.TitlesDistinct | app/careers/page.tsx:28-207 | No two listed positions share a title. |
| Careers.GroupPositions | app/careers/page.tsx:227-233 | The in-place `reduce` over the positions computes the grouping that `Careers.Grouped` defines. |
| Careers.GroupedDistinct | app/careers/page.tsx:227-233 | No department is listed twice. |
| Careers.GroupedKeys | app/careers/page.tsx:227-233 | A department has an entry exactly when some position belongs to it. |
| Careers.GroupedLookup | app/careers/page.tsx:227-233 | Each department's group holds exactly that department's positions, in list order. |
| Careers.GroupedCount | app/careers/page.tsx:227-233 | Grouping neither loses nor duplicates a position. |
| Careers.GroupedKeyOrder | app/careers/page.tsx:227-350 | Departments are listed in the order of their first position. |
| Careers.PositionsOrdinaryKeys | app/careers/page.tsx:28-233 | No department on the page is a name `Object.prototype` provides or an array index. |
| Careers.GroupedShape | app/careers/page.tsx:227-233 | Eight positions with the page's sequence of departments group into Marketing, Technology (three), Research, Content (the 6th and 8th) and Development. |
| Careers.FixtureGroups | app/careers/page.tsx:28-233 | The page lists Marketing [Social Media Manager], Technology [Full Stack Web Developer, Software Engineer, Data Engineer], Research [Quantitative Researcher], Content [Content Creator, Video Editor] and Development [Quant Developer]. |
| Careers.Toggled | app/careers/page.tsx:223-225 | Toggling collapses exactly when this position was the expanded one. Otherwise it expands this position. |
| Careers.ToggleTwice | app/careers/page.tsx:223-225 | Toggling the same position twice restores the state exactly when that position or none was expanded. |
| Careers.AtMostOneExpanded | app/careers/page.tsx:210-445 | At most one listed card is expanded at a time. |
| Careers.CareersPage.constructor | app/careers/page.tsx:210 | Nothing is expanded initially: no card shows its details. |
| Careers.CareersPage.OneCardExpanded | app/careers/page.tsx:426-445 | Two listed cards that both show their details are the same card. |
| Careers.CareersPage.ToggleJobDetails | app/careers/page.tsx:223-445 | The expanded position becomes `Careers.Toggled` of the old one. Afterwards a card shows its details exactly when it is the toggled one and that one was not expanded before. |
| Careers.FixtureRoutes | app/careers/page.tsx:539-555 | The detail route of each position: Quant Developer has none. |
| Careers.RoutesOfPositions | app/careers/page.tsx:539-555 | Every position but Quant Developer navigates somewhere. Every target but the Quantitative Researcher's is an existing detail page. |
| Careers.ApplicationCode | app/careers/page.tsx:560-578 | For every title but Quant Developer's, the corrected code is the one the page's `emailId` chain gives. |
| Careers.FixtureCodes | app/careers/page.tsx:560-578 | The body code of each position's application e-mail. |
| Careers.CodesMatchInstructions | app/careers/page.tsx:50-578 | Every position's body code is the unique string its instructions ask applicants to include. |
| Careers.MailtoCarriesBody | app/careers/page.tsx:578 | The link carries the subject "Application for" and the title, and it ends with the body parameter holding the code. |
| Careers.QuantDeveloperAsWritten | app/careers/page.tsx:181-578 | As written, the Quant Developer application has an empty body although its instructions ask for "QD2024", and its card navigates nowhere. |
| Hero.NextIndex | components/sections/hero.tsx:18 | The next index names a word and moves on by one, wrapping from the last word to the first. |
| Hero.IndexAfterIsRemainder | components/sections/hero.tsx:14-19 | After n ticks the index is n modulo the number of words. |
| Hero.RotationPeriod | components/sections/hero.tsx:14-19 | The rotation has period exactly three. |
| Hero.ExactlyOneVisible | components/sections/hero.tsx:54-59 | At every tick exactly one word, the current one, carries the `visible` class. |
| Hero.Offset | components/sections/hero.tsx:61 | The offset is zero for the current word, negative before it and positive after it, always a multiple of 100. |
| Hero.OffsetsStep | components/sections/hero.tsx:61 | Neighbouring words sit 100% apart. |
| Hero.SplitParts | components/sections/hero.tsx:65 | `split(' ')` gives one part more than there are spaces, and no part holds a space. |
| Hero.SplitJoin | components/sections/hero.tsx:65 | Splitting undoes joining parts that hold no space. |
| Hero.JoinSplit | components/sections/hero.tsx:65 | Joining the parts with single spaces gives the word back. |
| Hero.Separators | components/sections/hero.tsx:65-69 | A word with k parts renders k-1 line breaks and k-1 spaces. |
| Hero.WideTextIsWord | components/sections/hero.tsx:65-69 | With the line breaks hidden, each word reads exactly as written. |
| Hero.WordParts | components/sections/hero.tsx:7-11 | Each of the three words has two parts. |
| Hero.WordSeparators | components/sections/hero.tsx:7-69 | Each word shows one line break and one space. |

## Left out

- I/O is not modelled: authentication, the websocket connection, the REST calls, logging, the HTTP session and `start` are left out, and so are the rate limiter, the main loop's timing, the lock and concurrency. The broker's order reports, whether the broker call in `place_order` raises, the last traded prices and the clock are parameters. The text of the broker's placement response is not modelled.
- `_cts` and `_barrier_orders` are used without being initialised. The model initialises the barrier set to empty and leaves the cancellation token out.
- process_errored_orders recovery step left out: it removes a broker `Order` from a list of `KniteOrder`s. `KniteOrder` defines no equality with it, so the `remove` raises `ValueError` and stops the main loop. Had it not raised, the step would store that `Order` in `_open_orders`. Only the timeout filter is modelled.
- Websocket messages carry `filledqty` as text. A JSON number, which `int()` accepts, and a JSON `null`, on which `int(None)` raises `TypeError` and nothing changes, cannot be represented.
- `process_sl_exit` is not in the file; the exit-order branch of `process_new_order` calls it, and the model leaves that call out. On the `OrderManager` class, which has no base class, the call raises `AttributeError` and stops the main loop, which the model does not follow.
- `handle_order_failure` is not in the file. The model records the failing order in `failed`: marked REJECTED when `place_order` raised, unchanged when `fill_orders` raised. In the source the call to the undefined handler raises out of the `except` block and stops the main loop, which the model does not follow.
- `modify_order`, which `process_open_order` starts for an OPEN LIMIT order, is an HTTP call, so it is left out; such a report leaves the state unchanged in the model.
- `get_orders` and `get_orders_by_tags` are HTTP calls. The reports `get_orders` returns are the parameter of the open-order sweep.
- `start`, `stop`, `authenticate`, `_ws_listener`, `_rate_limiter` and `panic` are the process's lifecycle and I/O and are left out. `panic` only calls `exit_all_orders`.
- OrderBook.SlVisit: `process_sl_orders` removes the visited order with `list.remove`, which removes the first element equal to it. The model removes the element at the visited index. The two differ only if the same order object is in the list twice.
- `exit_all_orders` exits the values of the open-order dictionary in insertion order. The model represents the open orders as a map, which has no order, so it is left out; `exit_orders` itself is modelled.
- `place_orders_from_file`, `KniteOrder.parse_order`, `deserialize_orders`, `sod`, `get_api_client`, `PositionMgr`, `PositionState` and `main` are left out, because they are stubs, file input or start-up code. `place_orders_from_file` also calls `place_new_order`, which the file does not define.
- Oms.OrderManager.ExitOrders: the invariant is proved only for batches with no barrier in them (the batches the manager itself builds), not for arbitrary batches.
- OrderBook.FillOrders: a raise ends the main loop in `start` (omsflatradejiddi.py:69-80), which has no handler; the model reports the raise, and nothing after it is modelled.
- OrderModel.ParseInt: only ASCII whitespace and ASCII digits are handled. Python's `int()` also strips non-ASCII Unicode whitespace such as U+0085 and U+00A0, and reads non-ASCII decimal digits.
- Careers.GroupedKeyOrder, Careers.GroupedLookup, Careers.GroupedKeys and Careers.GroupPositions hold for departments that are ordinary keys. A department named after an `Object.prototype` member such as "constructor" or "toString" makes the `push` throw, and an array-index department such as "7" is listed before all others. `Careers.PositionsOrdinaryKeys` shows that the page's departments are ordinary keys.
- Stats.CounterView.Animate: JavaScript doubles are modelled as exact reals. The model omits the rounding of `Math.pow`, the `requestAnimationFrame` scheduling, the effect's cleanup and a restart of `useInView`.
- Stats.Parse: `parseInt` of a long digit run is exact here, whereas the source loses precision beyond 2^53.
- Careers: the descriptive fields of a position (responsibilities, requirements, dates) are displayed only and are left out, as are the `mounted` hydration guard and styling.
- The other files of the repository are display-only and are left out.

## Findings

| source | as written | input that shows it | evidently intended | confidence | as-written member | corrected member |
|---|---|---|---|---|---|---|
| app/careers/page.tsx:560-578 | The `emailId` chain has no branch for "Quant Developer (C++/Python)", so its "Apply Now" e-mail goes out with an empty body. | Apply Now on "Quant Developer (C++/Python)" opens `mailto:...&body=`, while line 181 asks for "QD2024" in the body. | The body carries "QD2024", as the position's instructions require. | medium, not executed | Careers.QuantDeveloperAsWritten | Careers.CodesMatchInstructions |
