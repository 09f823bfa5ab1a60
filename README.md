# Order placement engine of a restaurant ordering back end, in Dafny

The system is a restaurant back end (a Spring Boot service with a WeChat
mini-app front end). Customers fill a shopping cart dish by dish, check it
out as an order, and the order travels as a message through a broker to a
consumer that commits it to the database. Stock is guarded by one of four
interchangeable placement strategies (high concurrency over a cache,
optimistic, pessimistic with per-dish locks, and a serializing stand-in).
The cache (Redis) also holds per-order outcome markers, the waiting queue,
stock and make-time hashes, like counters and per-user bitmaps that two
scheduled jobs write back to the database.

This project models that engine:

- `OrderStatus`: the status flow of each consumption type and the
  successor function over it.
- `Cart`, `CartRules`, `CartConversion`: the cart and its lines, the
  addition and removal rules with their discount allowance, and the
  conversion between carts and orders.
- `OrderService`: the cart registry (a class whose map the methods
  update), table occupancy, checkout, rebuilding a cart from a placed
  order, cancellation and the waiting-time estimate.
- `DishNumMaps`: the per-dish unit map a request asks for, combos expanded
  into their member dishes.
- `Strategies`, `StrategyContent`: the four placement strategies, their
  stock checks, the lock registry and the context that selects one.
- `Messages`, `Consumer`, `CommitProperties`: the order message and the
  listener that deduplicates, deducts, writes, queues, acknowledges,
  cancels and rolls back.
- `CacheManager`, `RedisStore`, `Database`: the cache keys and helpers,
  and the cache and the tables as model state.
- `ScheduledTask`: the write-back of user bitmaps and the daily sales and
  discount reset.
- `OrderController`, `UserController`: the request handlers, including the
  completion poll and the like counter.
- `DishOrderPage`: the order page's cart merge, count change, combo stock
  and discount display.

Cache and database are classes whose fields (maps and sequences) the
methods reassign. Each operation is stated against a pure function of the
old state, and the properties the system promises are lemmas about those
functions. Where the source code and its design text disagree, the model
follows the code, except at the defects under "## Findings". There the
code as written is modelled by its own member, and the members the rest of
the model builds on are the corrected ones: `Consumer.Commit` and
`Consumer.DoAddOrder` queue the order's own units when a message carries
no map, `ScheduledTask.DoTask2` counts a store without sales as 0,
`OrderController.RelieveOccupied` tests the requester's own cart, and the
lock registry keys each (dish, store) pair apart. The dead-letter listener
is modelled both ways: `Consumer.DeadOrderMessageHandler` as written and
`Consumer.DeadOrderMessageHandlerChecked` corrected. The sequential runs
stand in for the source's locking.

## Model

| member | source | states |
|---|---|---|
| OrderStatus.Path | WxSpringBootProject/src/main/java/com/happysnaker/service/OrderService.java:45-46 | the path of each consumption type is the digit sequence of its path string ("217", "023417", "12357", "12367") |
| OrderStatus.IndexOfIsFirst | WxSpringBootProject/src/main/java/com/happysnaker/service/OrderService.java:47 | the lookup answers the first position where the state's string occurs, as `String.indexOf` does |
| OrderStatus.NextStatus | WxSpringBootProject/src/main/java/com/happysnaker/service/OrderService.java:37-48 | for an order not being cancelled, an unknown consumption type has no next status, and any next status of a known type is a state on that type's path |
| OrderStatus.PathDigitsDistinct | WxSpringBootProject/src/main/java/com/happysnaker/service/OrderService.java:45 | no state appears twice on a path, so a state's position on its path is unique |
| OrderStatus.NextIsSuccessorOnPath | WxSpringBootProject/src/main/java/com/happysnaker/service/OrderService.java:45-48 | along its own path every state but the last is followed by the next state of that path |
| OrderStatus.CompletedHasNoSuccessor | WxSpringBootProject/src/main/java/com/happysnaker/service/OrderService.java:47-48 | every path ends in Completed (7), and asking for its successor throws (the character after it is out of range) |
| OrderStatus.OffPathGoesToFirst | WxSpringBootProject/src/main/java/com/happysnaker/service/OrderService.java:47-48 | a one-digit state that is not on the path (other than Canceling) is not found, so the answer is the path's first state |
| OrderStatus.SuccessorDefinedIffNotCompleted | WxSpringBootProject/src/main/java/com/happysnaker/service/OrderService.java:37-48 | for a valid consumption type and a one-digit state, a successor exists exactly when the state is not Completed |
| OrderStatus.PathReachesCompleted | WxSpringBootProject/src/main/java/com/happysnaker/service/OrderService.java:23-30 | from the first state of its path, every order reaches Completed after path length minus one steps |
| OrderStatus.BypassRules | WxSpringBootProject/src/main/java/com/happysnaker/service/OrderService.java:39-44 | consumption type -1 keeps the status given; Canceling becomes Cancelled whatever the consumption type |
| Cart.IncreaseDiscountUsedCount | WxSpringBootProject/src/main/java/com/happysnaker/pojo/ShoppingCart.java:34-36 | one more discounted unit; every other field of the line is unchanged |
| Cart.DecreaseDiscountUsedCount | WxSpringBootProject/src/main/java/com/happysnaker/pojo/ShoppingCart.java:38-40 | one fewer discounted unit, with no lower bound; every other field is unchanged |
| Cart.IncreaseDishNum | WxSpringBootProject/src/main/java/com/happysnaker/pojo/ShoppingCart.java:42-44 | one more unit; every other field of the line is unchanged |
| Cart.DecreaseDishNum | WxSpringBootProject/src/main/java/com/happysnaker/pojo/ShoppingCart.java:46-48 | one fewer unit, with no lower bound; every other field is unchanged |
| Cart.IncreaseDecreaseInverse | WxSpringBootProject/src/main/java/com/happysnaker/pojo/ShoppingCart.java:34-48 | each decrement undoes the matching increment, and each increment undoes the matching decrement |
| Cart.ShoppingCart.constructor | WxSpringBootProject/src/main/java/com/happysnaker/pojo/ShoppingCart.java:53-93 | a fresh cart has consumption type -1, is neither locked nor complete, has zero totals and two empty line maps |
| CartRules.NewCartFor | WxSpringBootProject/src/main/java/com/happysnaker/service/impl/OrderServiceImpl.java:558-579 | the cart a first addition creates is for the requested store, table and customer, not complete, empty, and locked exactly when it is at a table |
| CartRules.AddDishSpec | WxSpringBootProject/src/main/java/com/happysnaker/service/impl/OrderServiceImpl.java:581-612 | an addition adds one unit and its price, stamps the time, and keeps the cart's owner, place, type and every other dish's lines |
| CartRules.RemoveDishSpec | WxSpringBootProject/src/main/java/com/happysnaker/service/impl/OrderServiceImpl.java:649-698 | a refused removal only marks the time with -1; any other removal takes one unit and its price off, stamps the time, and keeps the cart's owner, place, type and every other dish's lines |
| CartRules.AddDishEffect | WxSpringBootProject/src/main/java/com/happysnaker/service/impl/OrderServiceImpl.java:581-612 | an addition adds one unit and the price; it uses one more discounted unit exactly when the allowance left (allowance minus the cart's and the placed uses) is positive and the dish is not a combo; a combo gets its positive discount without using the allowance; no other dish or field changes |
| CartRules.RemoveDishEffect | WxSpringBootProject/src/main/java/com/happysnaker/service/impl/OrderServiceImpl.java:649-698 | a refused removal only sets the modification time to -1; any other removal takes one unit and the price off and gives a discounted unit back exactly when the allowance left before this order covers all units in the cart and the dish is not a combo |
| CartRules.AddKeepsDiscountConsistent | WxSpringBootProject/src/main/java/com/happysnaker/service/impl/OrderServiceImpl.java:593-608 | adding keeps the bookkeeping invariant (discounted units = min(units, allowance left before this order)), so the cart never uses more than the allowance |
| CartRules.RemoveKeepsDiscountConsistent | WxSpringBootProject/src/main/java/com/happysnaker/service/impl/OrderServiceImpl.java:671-698 | removing a unit that is in the cart keeps the same bookkeeping invariant |
| CartRules.ComboUsesNoAllowance | WxSpringBootProject/src/main/java/com/happysnaker/service/impl/OrderServiceImpl.java:596-607 | a combo (id 100000 or more) never changes the discounted-unit count, whether it is added or removed |
| CartRules.AddRemoveRoundTrip | WxSpringBootProject/src/main/java/com/happysnaker/service/impl/OrderServiceImpl.java:554-701 | under the bookkeeping invariant, an addition followed by a removal of the same dish restores the total, the discount and every line's unit and discounted counts |
| CartConversion.LinesOfKeys | WxSpringBootProject/src/main/java/com/happysnaker/service/impl/OrderServiceImpl.java:282-290 | emitting a map of cart lines gives one order line per visited key |
| CartConversion.UnitsOfDistinctKeys | WxSpringBootProject/src/main/java/com/happysnaker/service/impl/OrderServiceImpl.java:280-302 | emitting a map in any visiting order gives, for every dish, exactly the units and discounted units of its cart line |
| CartConversion.CartLinesCount | WxSpringBootProject/src/main/java/com/happysnaker/service/impl/OrderServiceImpl.java:280-302 | the checkout lines carry, per dish, the units and discounted units of both maps together, and exactly the lines of the additions map are flagged as added |
| CartConversion.InitialOrderTypeOnPath | WxSpringBootProject/src/main/java/com/happysnaker/service/impl/OrderServiceImpl.java:266-276 | a checkout starts a new order on the first state of its flow and a continued deposit order at confirming; either status has a successor |
| CartConversion.LinesToMapEntries | WxSpringBootProject/src/main/java/com/happysnaker/service/impl/OrderServiceImpl.java:722-732 | the replayed map holds exactly the ordered dishes, each with its last order line |
| CartConversion.ReplayedLinesMembers | WxSpringBootProject/src/main/java/com/happysnaker/service/impl/OrderServiceImpl.java:704-736 | the lines a rebuilt cart emits are the order's lines with the added flag cleared, and no others |
| CartConversion.ReplayedLinesCount | WxSpringBootProject/src/main/java/com/happysnaker/service/impl/OrderServiceImpl.java:722-732 | with one line per dish, the replayed map has one entry per order line |
| CartConversion.ReplayRoundTrip | WxSpringBootProject/src/main/java/com/happysnaker/service/impl/OrderServiceImpl.java:704-736 | rebuilding a cart from an order with one line per dish and checking it out again gives the same order id, now a continuation, the same totals and the same lines, none flagged as added |
| CommitProperties.CommittedOrder | WxSpringBootProject/src/main/java/com/happysnaker/service/impl/OrderConsumerImpl.java:109-125 | a committed new order reads back as the message carried it; a continuation reads back with the new prices at confirming; either way with the message's lines after any earlier ones |
| CommitProperties.CommittedNewOrder | WxSpringBootProject/src/main/java/com/happysnaker/service/impl/OrderConsumerImpl.java:109-113 | a new order with no earlier lines reads back exactly as the message carried it |
| CommitProperties.OrderRowsFrame | WxSpringBootProject/src/main/java/com/happysnaker/service/impl/OrderConsumerImpl.java:109-119 | the order's own rows touch only the order, pay and points tables |
| CommitProperties.OrderRowsPoints | WxSpringBootProject/src/main/java/com/happysnaker/service/impl/OrderConsumerImpl.java:110-113 | a new order adds 5 points to its customer's record when there is one; a continuation adds none |
| CommitProperties.AfterDeductionEffect | WxSpringBootProject/src/main/java/com/happysnaker/service/impl/OrderConsumerImpl.java:106-125 | the writes after the deduction leave the stock and the points where that step left them |
| CommitProperties.CommittedStock | WxSpringBootProject/src/main/java/com/happysnaker/service/impl/OrderConsumerImpl.java:100-105 | a commit takes exactly the message's units off its store's durable stock and nothing from any other store |
| CommitProperties.CommittedPoints | WxSpringBootProject/src/main/java/com/happysnaker/service/impl/OrderConsumerImpl.java:110-113 | a committed new order earns its customer the points, when the customer has a points record |
| CommitProperties.PessimisticMessageFailsAsWritten | WxSpringBootProject/src/main/java/com/happysnaker/service/impl/OrderConsumerImpl.java:100-106 | as written, a pessimistic placement's message (no map) is rejected by the commit and leaves the tables, the queue and the day's counter as they were, though the corrected commit would write it |
| CommitProperties.PessimisticMessageCommits | WxSpringBootProject/src/main/java/com/happysnaker/strategy/impl/PessimisticPlaceOrderStrategy.java:115-122 | with the queue fed from the order's lines, the pessimistic message commits whenever its order can be written, queues exactly the units the placement took and takes no durable stock again |
| Consumer.DeductionInventory | WxSpringBootProject/src/main/java/com/happysnaker/service/impl/OrderConsumerImpl.java:173-183 | the answer is true exactly when every entry of the map has enough durable stock; then each entry is deducted; otherwise the caller rolls back |
| Consumer.PushCopies | WxSpringBootProject/src/main/java/com/happysnaker/service/impl/OrderConsumerImpl.java:193-197 | n pushes of one entry put exactly n copies of it at the front of the waiting queue |
| Consumer.AddToWaitingQueue | WxSpringBootProject/src/main/java/com/happysnaker/service/impl/OrderConsumerImpl.java:188-199 | every unit of the map becomes one queue entry, all stamped with the same time; a dish with n units gets exactly n entries |
| Consumer.AddToWaitingQueueAsWritten | WxSpringBootProject/src/main/java/com/happysnaker/service/impl/OrderConsumerImpl.java:188-199 | the queue step as written fails, pushing nothing, exactly when the message has no map; with a map every unit becomes one queue entry |
| Consumer.UpsertedEffect | WxSpringBootProject/src/main/java/com/happysnaker/service/impl/OrderConsumerImpl.java:151-157 | update-then-insert adds the line's discount usage to the customer's record of the dish and changes nothing else |
| Consumer.RowAndSaleEffect | WxSpringBootProject/src/main/java/com/happysnaker/service/impl/OrderConsumerImpl.java:158-159 | the order-dish row and the sales update touch nothing but their own tables |
| Consumer.HandledLinesEffect | WxSpringBootProject/src/main/java/com/happysnaker/service/impl/OrderConsumerImpl.java:149-163 | handling an order's lines appends exactly their rows, adds each line's units to its dish's sales and changes nothing else but the discount usage |
| Consumer.HandledLinesUsage | WxSpringBootProject/src/main/java/com/happysnaker/service/impl/OrderConsumerImpl.java:150-157 | handling the lines adds each line's discount usage to the customer's record; other customers keep theirs |
| Consumer.LinesOfRows | WxSpringBootProject/src/main/java/com/happysnaker/service/impl/OrderConsumerImpl.java:158 | reading back the rows written for an order's lines gives those lines, and nothing for any other order |
| Consumer.HandleDishOrders | WxSpringBootProject/src/main/java/com/happysnaker/service/impl/OrderConsumerImpl.java:149-163 | the per-line loop leaves the tables as the line-handling function says and adds the lines' units to the store's field of the day's sales counter |
| Consumer.ApplyLine | WxSpringBootProject/src/main/java/com/happysnaker/service/impl/OrderConsumerImpl.java:151-161 | the writes of one line: its rows, and its units added to the day's counter |
| Consumer.UpdateOrderTypeChecked | WxSpringBootProject/src/main/java/com/happysnaker/service/impl/OrderServiceImpl.java:102-107 | the status update fails exactly when there is no such order, and then changes nothing |
| Consumer.WriteOrderRows | WxSpringBootProject/src/main/java/com/happysnaker/service/impl/OrderConsumerImpl.java:109-119 | the order's rows are written; it fails, changing nothing, only for a continuation whose order is missing |
| Consumer.DeductMessage | WxSpringBootProject/src/main/java/com/happysnaker/service/impl/OrderConsumerImpl.java:100-105 | a message without a map deducts nothing and passes; one with a map deducts it exactly when every entry is in stock |
| Consumer.DeductionKeepsOrders | WxSpringBootProject/src/main/java/com/happysnaker/service/impl/OrderConsumerImpl.java:100-119 | taking stock changes nothing the order rows are read from or checked against |
| Consumer.FinishCommit | WxSpringBootProject/src/main/java/com/happysnaker/service/impl/OrderConsumerImpl.java:107-125 | after the stock and the queue, the order's rows, pick-up code and line rows are written exactly when the order is new or its earlier order exists; otherwise the tables roll back to where the transaction began |
| Consumer.Commit | WxSpringBootProject/src/main/java/com/happysnaker/service/impl/OrderConsumerImpl.java:97-125 | corrected at the queue step: the commit succeeds exactly when the deduction passes and a continuation's order exists; the tables are then committed, otherwise rolled back; the queue gets one entry per unit of the message's map, or of the order's lines when there is none; the day's counter moves only on success |
| Consumer.CommitAsWritten | WxSpringBootProject/src/main/java/com/happysnaker/service/impl/OrderConsumerImpl.java:97-125 | as written: a message without a map is never committed and leaves the tables and the day's counter unchanged; a message with a map commits exactly as the corrected commit does |
| Consumer.DoAddOrder | WxSpringBootProject/src/main/java/com/happysnaker/service/impl/OrderConsumerImpl.java:66-144 | built on the corrected commit: an undecodable message is acknowledged with nothing changed; a message whose marker exists is left unanswered with nothing changed; otherwise the commit runs, the delivery is acknowledged or rejected, and the marker is 1 or -1 for 180 seconds |
| Consumer.CommitAndRecord | WxSpringBootProject/src/main/java/com/happysnaker/service/impl/OrderConsumerImpl.java:97-143 | the commit of a claimed message, followed by the marker recording its outcome |
| Consumer.RecordOutcome | WxSpringBootProject/src/main/java/com/happysnaker/service/impl/OrderConsumerImpl.java:139-143 | the marker holds the outcome with a fresh time to live of 180 seconds; nothing else changes |
| Consumer.DeliverTwice | WxSpringBootProject/src/main/java/com/happysnaker/service/impl/OrderConsumerImpl.java:75-93 | delivering the same message twice, with no time passing between, commits at most once: the second delivery finds the marker, is not answered and changes nothing |
| Consumer.DeliverAfterMarkerLapses | WxSpringBootProject/src/main/java/com/happysnaker/service/impl/OrderConsumerImpl.java:139-143 | once the marker's 180 seconds have passed, a delivery of the same message id (as a continuation of the same order carries) is answered again |
| RedisStore.Redis.Elapse | WxSpringBootProject/src/main/java/com/happysnaker/service/impl/OrderConsumerImpl.java:142 | once a key's time to live has passed, the key is gone; keys with time left keep the rest of it |
| Consumer.RollBackStock | WxSpringBootProject/src/main/java/com/happysnaker/service/impl/OrderConsumerImpl.java:211-230 | every entry of the map, the -1 entry included, is added to the cached stock of the store named under -1; a map without that entry fails before anything changes |
| Consumer.CompensationRestoresCache | WxSpringBootProject/src/main/java/com/happysnaker/service/impl/OrderConsumerImpl.java:211-219 | taking a placement's units off the cache and then consuming its compensation map restores every dish of the store; only the -1 field is new |
| Consumer.CancelledEffect | WxSpringBootProject/src/main/java/com/happysnaker/service/impl/OrderConsumerImpl.java:296-302 | cancelling sets the order's status to Cancelled and adds the notice; nothing else changes |
| Consumer.DeadOrderMessageHandler | WxSpringBootProject/src/main/java/com/happysnaker/service/impl/OrderConsumerImpl.java:240-261 | as written and inside the consumer's transaction: a message with a map cancels its order, notifies its customer, publishes the map with -1 mapped to the store and is acknowledged; a message without a map fails at the map, so cancellation and notice are rolled back and the delivery is left unanswered |
| Consumer.CancellationNotifies | WxSpringBootProject/src/main/java/com/happysnaker/service/impl/OrderConsumerImpl.java:250-255 | a cancellation always adds exactly one notice, so the tables after it differ from the tables before |
| Consumer.FailedPessimisticNeverTold | WxSpringBootProject/src/main/java/com/happysnaker/service/impl/OrderConsumerImpl.java:250-259 | as written, a rejected message without a map leaves no trace: its order is not cancelled, its customer not told, nothing is sent and the delivery stays unanswered |
| Consumer.DeadOrderMessageHandlerChecked | WxSpringBootProject/src/main/java/com/happysnaker/service/impl/OrderConsumerImpl.java:240-261 | corrected: every decodable rejected message cancels its order, notifies its customer and is acknowledged; only a message with a map sends that map, with -1 mapped to the store, for rollback |
| Consumer.DoCancelOrder | WxSpringBootProject/src/main/java/com/happysnaker/service/impl/OrderConsumerImpl.java:272-304 | an order whose status has moved on is acknowledged unchanged; otherwise its recomputed map goes to rollback, it is set to Cancelled and its customer told; an unknown order fails with nothing changed |
| Consumer.CancelAppliesOnce | WxSpringBootProject/src/main/java/com/happysnaker/service/impl/OrderConsumerImpl.java:283-288 | once the listener has cancelled an order, a redelivery of the same message no longer applies |
| Database.OptimisticDeductInventory | WxSpringBootProject/src/main/java/com/happysnaker/service/impl/OrderConsumerImpl.java:176-181 | the deduction reports one row exactly when the dish has at least the amount in stock and then takes it off; with no row nothing changes; other dishes and stores keep their stock |
| Database.Notify | WxSpringBootProject/src/main/java/com/happysnaker/service/impl/OrderConsumerImpl.java:251-255 | a notice adds one message and one unread to the customer's count, creating the count at 1 when absent; nothing else changes |
| DishNumMaps.GetDishNumMap | WxSpringBootProject/src/main/java/com/happysnaker/strategy/impl/AbstractPlaceOrderStrategy.java:33-49 | the loop builds exactly the dish-count map of the lines |
| DishNumMaps.AddMembersEffect | WxSpringBootProject/src/main/java/com/happysnaker/strategy/impl/AbstractPlaceOrderStrategy.java:38-43 | a combo adds member units times the combo count to each member dish and touches no other dish |
| DishNumMaps.AddLineEffect | WxSpringBootProject/src/main/java/com/happysnaker/strategy/impl/AbstractPlaceOrderStrategy.java:35-46 | adding a line adds exactly that line's units to every dish it names, and to no other dish |
| DishNumMaps.DishNumMapCounts | WxSpringBootProject/src/main/java/com/happysnaker/strategy/impl/AbstractPlaceOrderStrategy.java:33-49 | a dish is a key exactly when some line names it (directly or as a combo member), and its value is the total units the lines ask for |
| DishNumMaps.DishNumMapAppend | WxSpringBootProject/src/main/java/com/happysnaker/strategy/impl/AbstractPlaceOrderStrategy.java:41-46 | merging is additive: the map of two lists of lines is the sum of their maps |
| DishNumMaps.DishNumMapPermutation | WxSpringBootProject/src/main/java/com/happysnaker/strategy/impl/AbstractPlaceOrderStrategy.java:35-47 | the map does not depend on the order of the lines |
| DishNumMaps.DishNumMapSwap | WxSpringBootProject/src/main/java/com/happysnaker/strategy/impl/AbstractPlaceOrderStrategy.java:35-47 | two halves of an order give the same map in either order |
| DishNumMaps.DishNumMapSum | WxSpringBootProject/src/main/java/com/happysnaker/strategy/impl/AbstractPlaceOrderStrategy.java:41-46 | the values of the map add up to the total units the lines ask for |
| DishOrderPage.Merged | WxAppProject/pages/dish-order/dish-order.js:397-421 | the merged cart has an entry for every dish of either map and for no other |
| DishOrderPage.MergedIsServerCart | WxAppProject/pages/dish-order/dish-order.js:397-421 | the merged cart shows, per dish, the server's units and discounted units over both maps, an absent side counting 0 |
| DishOrderPage.MergedSymmetric | WxAppProject/pages/dish-order/dish-order.js:397-421 | swapping the two maps gives the same merged cart |
| DishOrderPage.MergerAndGetCart | WxAppProject/pages/dish-order/dish-order.js:397-421 | the two loops build exactly the merged cart |
| DishOrderPage.MergedUnits | WxAppProject/pages/dish-order/dish-order.js:382-421 | the number the page shows for a merged cart is the number of units on both of the server's maps |
| DishOrderPage.TotalNum | WxAppProject/pages/dish-order/dish-order.js:383-386 | the loop adds up the units of every entry of the page cart |
| DishOrderPage.CountChangeRequest | WxAppProject/pages/dish-order/dish-order.js:257-304 | an equal count sends nothing, a higher count sends an addition, a lower one a removal |
| DishOrderPage.Page.FlusheData | WxAppProject/pages/dish-order/dish-order.js:382-394 | the page shows the given cart, price and discount, and the sum of the cart's units |
| DishOrderPage.Page.DishCountChange | WxAppProject/pages/dish-order/dish-order.js:257-323 | the request is decided from the count shown; an accepted addition, or a removal answered with a cart (refused ones included), makes the page show the server's cart; any other answer leaves the page as it was |
| DishOrderPage.GetComboStock | WxAppProject/pages/dish-order/dish-order.js:437-447 | the least stock among the combo's members, NO_LIMIT (0x3f3f3f3f) for a combo without members; None when a member's stock is unknown |
| DishOrderPage.AddLikeAndCollection | WxAppProject/pages/dish-order/dish-order.js:774-794 | every dish is marked liked, collected and meant to buy exactly when its id is on the matching list; nothing else changes |
| DishOrderPage.FixedIsServerAllowance | WxAppProject/pages/dish-order/dish-order.js:631-636 | the count shown for a discounted dish, less the cart's discounted units, is the allowance left that the server checks before giving one more discounted unit |
| DishOrderPage.FixDiscountNum | WxAppProject/pages/dish-order/dish-order.js:627-636 | every dish with a discount and a usage record has its count lowered by the used units; every other dish is unchanged |
| Messages.NewOrderMessage | WxSpringBootProject/src/main/java/com/happysnaker/pojo/OrderMessage.java:26-30 | the message stores the map and the order as passed, and its id is the order's id |
| Messages.MessageIdCapturedOnce | WxSpringBootProject/src/main/java/com/happysnaker/pojo/OrderMessage.java:24-29 | the id is captured once: later changes to the carried order do not move it |
| OrderController.OrderTypeFor | WxSpringBootProject/src/main/java/com/happysnaker/controller/OrderController.java:53-55 | the table {2, 0, 1, 1} indexed by consumption type; no entry outside 0..3, where the source throws |
| OrderController.OrderTypeIsFirstOnPath | WxSpringBootProject/src/main/java/com/happysnaker/controller/OrderController.java:53-55 | whatever status the client sent, the order starts in the first state of its type's path |
| OrderController.SubmittedOrder | WxSpringBootProject/src/main/java/com/happysnaker/controller/OrderController.java:52-59 | the order passed on has the status from the table and the requester as customer; everything else is as the client sent it |
| OrderController.AdoptType | WxSpringBootProject/src/main/java/com/happysnaker/controller/OrderController.java:185-189 | the customer's cart, if it has no type yet, takes the requested one; no other cart changes |
| OrderController.AdoptedCompatibleIff | WxSpringBootProject/src/main/java/com/happysnaker/controller/OrderController.java:186-196 | an existing cart accepts the addition exactly when its type is unset or the requested one and its store, table and customer match |
| OrderController.RemoveCode | WxSpringBootProject/src/main/java/com/happysnaker/controller/OrderController.java:211-220 | 101 exactly when the returned cart carries the -1 mark, 200 otherwise |
| OrderController.RemoveCodeMeaning | WxSpringBootProject/src/main/java/com/happysnaker/controller/OrderController.java:211-220 | the answer is 101 exactly when the removal was refused, and a refused removal changes nothing but the time the controller stamps |
| OrderController.AdoptConsumeType | WxSpringBootProject/src/main/java/com/happysnaker/controller/OrderController.java:187-189 | the customer's cart takes the requested type if it has none; every other cart is unchanged |
| OrderController.AddDishToCart | WxSpringBootProject/src/main/java/com/happysnaker/controller/OrderController.java:179-203 | an existing incompatible cart answers 0 and keeps only the adopted type; otherwise the answer is 200 with the cart after the addition |
| OrderController.RemoveDishToCart | WxSpringBootProject/src/main/java/com/happysnaker/controller/OrderController.java:205-225 | 0 without a cart; 101, after stamping the cart with the later time, when the removal is refused; 200 with the edited cart otherwise |
| OrderController.RelievesAsWrittenNever | WxSpringBootProject/src/main/java/com/happysnaker/controller/OrderController.java:163-171 | the cart looked at is filed under the requester's own name, so the condition as written never holds |
| OrderController.RelievesAsWritten | WxSpringBootProject/src/main/java/com/happysnaker/controller/OrderController.java:163-171 | the condition as written never holds for a cart the intended condition accepts |
| OrderController.Relieved | WxSpringBootProject/src/main/java/com/happysnaker/controller/OrderController.java:160-177 | after the corrected request, the requester's cart is gone when it matched the table (its type adopted first) and kept otherwise |
| OrderController.RelievedFreesTable | WxSpringBootProject/src/main/java/com/happysnaker/controller/OrderController.java:160-177 | after the corrected request no cart of the requester holds that table, and a second request changes nothing |
| OrderController.RelieveOccupied | WxSpringBootProject/src/main/java/com/happysnaker/controller/OrderController.java:160-177 | the corrected request leaves the registry as Relieved says and always answers 200 |
| OrderController.CompleteCode | WxSpringBootProject/src/main/java/com/happysnaker/controller/OrderController.java:267-275 | 1 answers 200, -1 answers 409, any other marker 0 (still queuing) |
| OrderController.CounterAfter | WxSpringBootProject/src/main/java/com/happysnaker/controller/OrderController.java:252-265 | the counter after any number of checks stays between -1 and 5 |
| OrderController.CounterAfterClosed | WxSpringBootProject/src/main/java/com/happysnaker/controller/OrderController.java:252-265 | the counter runs 5, 4, ..., 0, -1 and then cycles -1, 2, 1, 0 |
| OrderController.ConsultsEveryFourth | WxSpringBootProject/src/main/java/com/happysnaker/controller/OrderController.java:252-265 | the n-th check (counting from 0) consults the strategy exactly when n is at least 5 and n - 5 is divisible by 4: the 6th check and every 4th after it |
| OrderController.CheckCounter.constructor | WxSpringBootProject/src/main/java/com/happysnaker/controller/OrderController.java:252 | the counter starts at 5 |
| OrderController.CheckCounter.IsComplete | WxSpringBootProject/src/main/java/com/happysnaker/controller/OrderController.java:254-282 | a missing id answers 400 and leaves the counter alone; otherwise the counter steps, and only the check that finds it at 0 asks the strategy and maps its marker; a marker read that fails answers 400 |
| OrderService.IdleAnHourExactly | WxSpringBootProject/src/main/java/com/happysnaker/service/impl/OrderServiceImpl.java:524-527 | idle for 60 whole minutes, with Java's truncating division, means at least 3600000 ms since the last edit |
| OrderService.ApplyAddDish | WxSpringBootProject/src/main/java/com/happysnaker/service/impl/OrderServiceImpl.java:581-612 | the cart object afterwards is the addition rule applied to its old state |
| OrderService.ApplyRemoveDish | WxSpringBootProject/src/main/java/com/happysnaker/service/impl/OrderServiceImpl.java:655-700 | the cart object afterwards is the removal rule applied to its old state, including the refusal mark |
| OrderService.AddDishToCartsEffect | WxSpringBootProject/src/main/java/com/happysnaker/service/impl/OrderServiceImpl.java:554-615 | an addition touches only the requester's cart; a first addition creates it for the requested store and table, locked exactly when there is a table, with one unit and its price |
| OrderService.AddThenRemoveRestoresCarts | WxSpringBootProject/src/main/java/com/happysnaker/service/impl/OrderServiceImpl.java:554-701 | adding and then removing a dish restores the customer's total, discount and counts, whether the cart existed or was created, and leaves every other cart alone |
| OrderService.EmitLines | WxSpringBootProject/src/main/java/com/happysnaker/service/impl/OrderServiceImpl.java:282-290 | the loop emits exactly the lines of the map in its visiting order: one line per dish of the map, no dish twice, each line carrying its cart line's units, price, discounted units and name |
| OrderService.GetDishOrders | WxSpringBootProject/src/main/java/com/happysnaker/service/impl/OrderServiceImpl.java:280-302 | the checkout lines are the original lines followed by the additions flagged as added; per dish they carry all the cart's units and discounted units, and the added lines carry exactly the additions map's units |
| OrderService.ReplayLines | WxSpringBootProject/src/main/java/com/happysnaker/service/impl/OrderServiceImpl.java:722-732 | replaying the lines one after another gives the replayed map |
| OrderService.WaitingDefined | WxSpringBootProject/src/main/java/com/happysnaker/service/impl/OrderServiceImpl.java:457-484 | the estimate exists exactly when every queued non-combo dish has a make time, and it is never negative |
| OrderService.EntryWait | WxSpringBootProject/src/main/java/com/happysnaker/service/impl/OrderServiceImpl.java:461-476 | one entry's wait fails exactly for a non-combo dish without a make time; it is never negative, 0 for a combo, and at most the dish's make time for an entry queued no later than now |
| OrderService.WaitingMs | WxSpringBootProject/src/main/java/com/happysnaker/service/impl/OrderServiceImpl.java:457-484 | the estimate for a whole queue is never negative |
| OrderService.WaitingNonIncreasing | WxSpringBootProject/src/main/java/com/happysnaker/service/impl/OrderServiceImpl.java:473-475 | the estimate never grows as time passes |
| OrderService.WaitingAppend | WxSpringBootProject/src/main/java/com/happysnaker/service/impl/OrderServiceImpl.java:460-477 | every queue entry adds its own remaining time: the estimate of a longer queue is the sum of its parts |
| OrderService.SumWaiting | WxSpringBootProject/src/main/java/com/happysnaker/service/impl/OrderServiceImpl.java:459-477 | the loop sums the remaining preparation time over the queue, skipping combos; None exactly when a dish lacks a cached make time |
| OrderService.GetWaitingTime | WxSpringBootProject/src/main/java/com/happysnaker/service/impl/OrderServiceImpl.java:452-485 | the wait in minutes over the whole queue; a miss rebuilds the make-time cache from the dish list and retries once; None if it misses again |
| OrderService.PendingStatusResumes | WxSpringBootProject/src/main/java/com/happysnaker/service/impl/OrderServiceImpl.java:159 | the pending status a cancelled payment sets is on the order's flow, and paying again resumes it |
| OrderService.CancelPay | WxSpringBootProject/src/main/java/com/happysnaker/service/impl/OrderServiceImpl.java:156-163 | a known order goes back to its pending status and is published; an unknown order fails with nothing changed |
| OrderService.CancelRequestedEffect | WxSpringBootProject/src/main/java/com/happysnaker/service/impl/OrderServiceImpl.java:494-503 | a cancellation request files the request and moves a known order to Canceling; nothing else changes |
| OrderService.CancelRequestedOnce | WxSpringBootProject/src/main/java/com/happysnaker/service/impl/OrderServiceImpl.java:494-503 | from Canceling the next status is Cancelled, and asking to cancel twice is the same as asking once |
| OrderService.CancelOrder | WxSpringBootProject/src/main/java/com/happysnaker/service/impl/OrderServiceImpl.java:494-503 | the tables afterwards hold the request (replacing an earlier one for the order) and the order at Canceling |
| OrderService.NewCart | WxSpringBootProject/src/main/java/com/happysnaker/service/impl/OrderServiceImpl.java:558-579 | a new cart for the store, table and customer, not complete, empty, locked exactly when there is a table |
| OrderService.NewCartForOrder | WxSpringBootProject/src/main/java/com/happysnaker/service/impl/OrderServiceImpl.java:710-719 | a new cart carrying the placed order's customer, store, table, type, totals and id, complete and locked, with no lines yet |
| OrderService.NewCartFromOrder | WxSpringBootProject/src/main/java/com/happysnaker/service/impl/OrderServiceImpl.java:710-732 | a new cart as the order's rebuilt cart, its lines replayed from the order |
| OrderService.CartStore.AddDish | WxSpringBootProject/src/main/java/com/happysnaker/service/impl/OrderServiceImpl.java:554-615 | the registry afterwards is the addition applied to the requester's cart (created on the first addition) |
| OrderService.CartStore.Open | WxSpringBootProject/src/main/java/com/happysnaker/service/impl/OrderServiceImpl.java:558-579 | afterwards the customer has a cart: the old one, or a new one for the store and table |
| OrderService.CartStore.File | WxSpringBootProject/src/main/java/com/happysnaker/service/impl/OrderServiceImpl.java:734 | the cart is filed under its customer, replacing any earlier one |
| OrderService.CartStore.EditFiled | WxSpringBootProject/src/main/java/com/happysnaker/service/impl/OrderServiceImpl.java:581-613 | the cart filed under the customer is the addition rule applied to it; other carts unchanged |
| OrderService.CartStore.RemoveDish | WxSpringBootProject/src/main/java/com/happysnaker/service/impl/OrderServiceImpl.java:649-701 | None and no change without a cart; otherwise the customer's cart is the removal rule applied to it |
| OrderService.CartStore.RelieveOccupied | WxSpringBootProject/src/main/java/com/happysnaker/service/impl/OrderServiceImpl.java:540-542 | the customer's cart is removed and every other cart kept |
| OrderService.CartStore.IsOccupied | WxSpringBootProject/src/main/java/com/happysnaker/service/impl/OrderServiceImpl.java:507-537 | false for no table, a free table, or the requester's own cart; an occupant idle an hour loses its cart and the answer is false; otherwise the occupant's lock flag |
| OrderService.CartStore.FindAtTable | WxSpringBootProject/src/main/java/com/happysnaker/service/impl/OrderServiceImpl.java:511-518 | some customer whose cart is at the table, or None exactly when there is none |
| OrderService.CartStore.GetCart | WxSpringBootProject/src/main/java/com/happysnaker/service/impl/OrderServiceImpl.java:744-752 | the customer's cart, or None exactly when they have none |
| OrderService.CartStore.FindCartOf | WxSpringBootProject/src/main/java/com/happysnaker/service/impl/OrderServiceImpl.java:240-246 | a cart whose customer field names the user, or None exactly when there is none |
| OrderService.CartStore.GetOrder | WxSpringBootProject/src/main/java/com/happysnaker/service/impl/OrderServiceImpl.java:239-278 | the order the customer's cart checks out as (new or continuation, status by type, both maps' lines); None without a cart; nothing changes |
| OrderService.CartStore.GetCartFromOrder | WxSpringBootProject/src/main/java/com/happysnaker/service/impl/OrderServiceImpl.java:704-736 | for a known order a rebuilt cart filed under its customer; None and no change for an unknown order |
| OrderService.CartStore.PlaceOrder | WxSpringBootProject/src/main/java/com/happysnaker/service/impl/OrderServiceImpl.java:216-227 | with a cart, the strategy places the order and the cart is dropped only when it succeeds; without one the duplicate-order error and no change |
| ScheduledTask.BitmapKeyInjective | WxSpringBootProject/src/main/java/com/happysnaker/config/RedisCacheManager.java:81-95 | distinct (mark, customer) pairs have distinct bitmap keys |
| ScheduledTask.SyncDishId | WxSpringBootProject/src/main/java/com/happysnaker/config/ScheduledTask.java:59-86 | for one dish, each present dish bitmap's row is added or removed to match its bit, against the rows listed before the loop |
| ScheduledTask.SyncDishes | WxSpringBootProject/src/main/java/com/happysnaker/config/ScheduledTask.java:56-88 | over every dish, each dish mark whose bitmap is present brings the customer's rows in line with it |
| ScheduledTask.SyncStores | WxSpringBootProject/src/main/java/com/happysnaker/config/ScheduledTask.java:89-98 | over every store, the customer's collected-store rows match the store bitmap when it is present |
| ScheduledTask.SyncUser | WxSpringBootProject/src/main/java/com/happysnaker/config/ScheduledTask.java:48-98 | one customer's four link tables are brought in line with their present bitmaps; an absent bitmap leaves its table unchanged |
| ScheduledTask.DeleteUserKeys | WxSpringBootProject/src/main/java/com/happysnaker/config/ScheduledTask.java:99-102 | exactly the customer's four bitmaps are deleted |
| ScheduledTask.AllSyncedMeaning | WxSpringBootProject/src/main/java/com/happysnaker/config/ScheduledTask.java:58-97 | after the write-back, a row of a processed customer is in the table exactly when its bit is set |
| ScheduledTask.AllSyncedIdempotent | WxSpringBootProject/src/main/java/com/happysnaker/config/ScheduledTask.java:58-97 | writing the same cache back twice is the same as writing it back once |
| ScheduledTask.DoTask1 | WxSpringBootProject/src/main/java/com/happysnaker/config/ScheduledTask.java:45-104 | every customer's link tables follow their present bitmaps (like to collected, collected to favourite, will-buy to will-buy, store to collected store) and all four bitmaps of every customer are deleted |
| ScheduledTask.TodaySalesAsWritten | WxSpringBootProject/src/main/java/com/happysnaker/config/ScheduledTask.java:111-114 | as written: 0 without the day's counter, the store's field when present, and a null-pointer failure when the field is missing |
| ScheduledTask.TodaySales | WxSpringBootProject/src/main/java/com/happysnaker/config/ScheduledTask.java:111-114 | the store's sales for the day agree with the job as written wherever that does not raise, and are 0 where it would raise |
| ScheduledTask.SaleRows | WxSpringBootProject/src/main/java/com/happysnaker/config/ScheduledTask.java:110-116 | one sale-log row per store, in visiting order, each with that store's sales |
| ScheduledTask.SaleRowsAsWritten | WxSpringBootProject/src/main/java/com/happysnaker/config/ScheduledTask.java:110-116 | when the job as written completes, it logs exactly the corrected rows |
| ScheduledTask.SaleRowsAsWrittenAborts | WxSpringBootProject/src/main/java/com/happysnaker/config/ScheduledTask.java:110-116 | as written, the job completes exactly when the day's counter is absent or has a field for every store |
| ScheduledTask.UnsoldStoreAbortsAsWritten | WxSpringBootProject/src/main/java/com/happysnaker/config/ScheduledTask.java:113 | with two stores of which one sold nothing today, the job as written fails where it should log 0 |
| ScheduledTask.ZeroOn | WxSpringBootProject/src/main/java/com/happysnaker/config/ScheduledTask.java:122-125 | every count of a listed dish is 0, every other record unchanged |
| ScheduledTask.ResetAll | WxSpringBootProject/src/main/java/com/happysnaker/config/ScheduledTask.java:120-126 | every listed customer has all their discount counts at 0; others unchanged |
| ScheduledTask.ResetUser | WxSpringBootProject/src/main/java/com/happysnaker/config/ScheduledTask.java:121-125 | the loop sets every one of the customer's discount counts to 0 |
| ScheduledTask.DoTask2 | WxSpringBootProject/src/main/java/com/happysnaker/config/ScheduledTask.java:108-128 | the sale log gains one row per store with its sales (0 when none), the waiting queue is deleted, and every customer's discount counts are 0 |
| Strategies.AddedLinesMembers | WxSpringBootProject/src/main/java/com/happysnaker/strategy/impl/HighConcurrencyPlaceOrderStrategy.java:169-171 | the filter keeps exactly the lines flagged as added, in order, and no more lines than given |
| Strategies.PrepareNewOrder | WxSpringBootProject/src/main/java/com/happysnaker/strategy/impl/HighConcurrencyPlaceOrderStrategy.java:96-116 | a new order is marked new, stamped, given the fresh ids, and a pick-up code exactly for takeaway |
| Strategies.PrepareOldOrder | WxSpringBootProject/src/main/java/com/happysnaker/strategy/impl/HighConcurrencyPlaceOrderStrategy.java:169-191 | a continuation keeps only its added lines and goes back to confirming |
| Strategies.ContinuationIgnoresPlacedLines | WxSpringBootProject/src/main/java/com/happysnaker/strategy/impl/HighConcurrencyPlaceOrderStrategy.java:169-172 | a continuation takes nothing for a line that was not added, wherever it stands |
| Strategies.ContinuationTakesAddedUnits | WxSpringBootProject/src/main/java/com/happysnaker/strategy/impl/HighConcurrencyPlaceOrderStrategy.java:167-194 | a continuation takes per dish exactly the units of its added lines, and the order it sends carries just those lines |
| Strategies.IsComplete | WxSpringBootProject/src/main/java/com/happysnaker/strategy/impl/AbstractPlaceOrderStrategy.java:57-63 | the marker value while the marker is present (exists with a time to live), 0 otherwise; None when the value cannot be read |
| Strategies.NoOversell | WxSpringBootProject/src/main/java/com/happysnaker/strategy/impl/HighConcurrencyPlaceOrderStrategy.java:121-131 | taking what a passed check allowed leaves every stock entry at or above zero |
| Strategies.DeductThenRollBack | WxSpringBootProject/src/main/java/com/happysnaker/strategy/impl/HighConcurrencyPlaceOrderStrategy.java:128-151 | taking a request off and adding back its compensation map restores every dish other than -1 |
| Strategies.CheckStockOnce | WxSpringBootProject/src/main/java/com/happysnaker/strategy/impl/HighConcurrencyPlaceOrderStrategy.java:56-62 | true exactly when every requested dish has cached stock at least the amount; None at a missing entry |
| Strategies.CheckStock | WxSpringBootProject/src/main/java/com/happysnaker/strategy/impl/HighConcurrencyPlaceOrderStrategy.java:54-68 | the check over the cache, refilling it from durable stock and checking once more on a miss; None when the second pass misses too |
| Strategies.CachedStockIsUsed | WxSpringBootProject/src/main/java/com/happysnaker/strategy/impl/HighConcurrencyPlaceOrderStrategy.java:54-62 | with every requested entry cached, the check answers over the cache as it stands |
| Strategies.EmptiedCacheChecksDurableStock | WxSpringBootProject/src/main/java/com/happysnaker/strategy/impl/HighConcurrencyPlaceOrderStrategy.java:110-121 | after the new-order delete, a non-empty request is always checked against the durable stock itself |
| Strategies.IncrementFields | WxSpringBootProject/src/main/java/com/happysnaker/strategy/impl/HighConcurrencyPlaceOrderStrategy.java:128-131 | every requested dish's cached stock moves by sign times its amount; other fields and keys are unchanged |
| Strategies.HighConcurrencyInit | WxSpringBootProject/src/main/java/com/happysnaker/strategy/impl/HighConcurrencyPlaceOrderStrategy.java:42-47 | every store's stock hash afterwards holds its durable stock |
| Strategies.HighConcurrencyPlace | WxSpringBootProject/src/main/java/com/happysnaker/strategy/impl/HighConcurrencyPlaceOrderStrategy.java:84-159 | with a passed check the cache is decremented and the message sent with the map; on a failed send a compensation map goes out; otherwise nothing is taken |
| Strategies.DropAndCheck | WxSpringBootProject/src/main/java/com/happysnaker/strategy/impl/HighConcurrencyPlaceOrderStrategy.java:109-123 | a new order first drops the store's stock hash, then checks; only that key changes |
| Strategies.DeductAndSend | WxSpringBootProject/src/main/java/com/happysnaker/strategy/impl/HighConcurrencyPlaceOrderStrategy.java:124-153 | the cache drops by the request; the message is sent, or on failure the compensation map with -1 mapped to the store |
| Strategies.OptimisticPlace | WxSpringBootProject/src/main/java/com/happysnaker/strategy/impl/OptimisticPlaceOrderStrategy.java:54-108 | no stock is read or taken; the message carries the whole map; a failed send publishes nothing |
| Strategies.LockKeyAsWritten | WxSpringBootProject/src/main/java/com/happysnaker/strategy/impl/PessimisticPlaceOrderStrategy.java:44-45 | the lock key as written: the shift on a Java int is by 0, so the key is the bits of the dish or'ed with the store's |
| Strategies.LockKeyAsWrittenCollides | WxSpringBootProject/src/main/java/com/happysnaker/strategy/impl/PessimisticPlaceOrderStrategy.java:45 | (1, 2) and (3, 0) get the same lock key as written |
| Strategies.LockKeyInjective | WxSpringBootProject/src/main/java/com/happysnaker/strategy/impl/PessimisticPlaceOrderStrategy.java:45 | with the dish widened to 64 bits before the shift, distinct (dish, store) pairs get distinct keys |
| Strategies.LockMap.GetLock | WxSpringBootProject/src/main/java/com/happysnaker/strategy/impl/PessimisticPlaceOrderStrategy.java:44-48 | the pair's lock, created on first use; the same lock on every later call; no other lock changes |
| Strategies.DeductStep | WxSpringBootProject/src/main/java/com/happysnaker/strategy/impl/PessimisticPlaceOrderStrategy.java:106-108 | one conditional deduction succeeds exactly when the dish had enough stock before the loop, and then takes it |
| Strategies.LockAndCheck | WxSpringBootProject/src/main/java/com/happysnaker/strategy/impl/PessimisticPlaceOrderStrategy.java:94-102 | every requested dish's lock is taken and the answer is true exactly when every dish has enough durable stock |
| Strategies.DeductAll | WxSpringBootProject/src/main/java/com/happysnaker/strategy/impl/PessimisticPlaceOrderStrategy.java:106-108 | after a passed check every requested dish's durable stock drops by its amount |
| Strategies.PessimisticPlace | WxSpringBootProject/src/main/java/com/happysnaker/strategy/impl/PessimisticPlaceOrderStrategy.java:56-133 | a failed check takes nothing and fails; otherwise durable stock drops by the request and a message without a map is sent; a failed send rolls the deduction back |
| Strategies.PessimisticNoOversell | WxSpringBootProject/src/main/java/com/happysnaker/strategy/impl/PessimisticPlaceOrderStrategy.java:94-108 | after a passed check, durable stock drops by exactly the request, never below zero, and other stores keep theirs |
| Strategies.PessimisticTenAndTwoSixes | WxSpringBootProject/src/main/java/com/happysnaker/strategy/impl/PessimisticPlaceOrderStrategy.java:98-108 | ten units and two requests for six: the first passes and leaves four, the second is refused |
| StrategyContent.RegisteredCodes | WxSpringBootProject/src/main/java/com/happysnaker/strategy/PlaceOrderStrategyContent.java:32-37 | exactly the codes 0 to 3 are registered: high concurrency, optimistic, pessimistic, serialize |
| StrategyContent.Context.constructor | WxSpringBootProject/src/main/java/com/happysnaker/strategy/PlaceOrderStrategyContent.java:29 | no strategy is selected at first |
| StrategyContent.Context.SetStrategy | WxSpringBootProject/src/main/java/com/happysnaker/strategy/PlaceOrderStrategyContent.java:39-41 | the strategy registered under the code is selected; an unregistered code selects none |
| StrategyContent.Context.InitMethod | WxSpringBootProject/src/main/java/com/happysnaker/strategy/impl/AbstractPlaceOrderStrategy.java:51-54 | only the high-concurrency strategy's hook does anything (refill every store's stock hash); the others leave the cache unchanged |
| StrategyContent.Context.Execute | WxSpringBootProject/src/main/java/com/happysnaker/strategy/PlaceOrderStrategyContent.java:43-51 | placing answers and changes exactly what the selected strategy does; serialize answers with no reply and changes nothing; none selected fails with nothing changed |
| StrategyContent.Context.IsCompleteOf | WxSpringBootProject/src/main/java/com/happysnaker/strategy/PlaceOrderStrategyContent.java:53-55 | the serialize strategy answers 1; the others read the marker (0 when absent); None when no strategy is selected |
| UserController.Liked | WxSpringBootProject/src/main/java/com/happysnaker/controller/UserController.java:65-84 | the like hash gains the dish; a delta reaching the threshold goes back to 0, any other is the old delta plus 1; other dishes keep theirs |
| UserController.Unliked | WxSpringBootProject/src/main/java/com/happysnaker/controller/UserController.java:98-105 | the mirror of a like: the delta minus 1, back to 0 once it reaches minus the threshold |
| UserController.LikeStaysBelowFlush | WxSpringBootProject/src/main/java/com/happysnaker/controller/UserController.java:81-84 | after a like the dish's delta is below the threshold |
| UserController.UnlikeStaysAboveFlush | WxSpringBootProject/src/main/java/com/happysnaker/controller/UserController.java:102-105 | after an unlike the dish's delta is above minus the threshold |
| UserController.LikesKeepWithinFlush | WxSpringBootProject/src/main/java/com/happysnaker/controller/UserController.java:65-105 | likes and unlikes keep every delta strictly inside the threshold in both directions |
| UserController.LikesConserved | WxSpringBootProject/src/main/java/com/happysnaker/controller/UserController.java:78-84 | no like is lost: the delta left plus the delta handed to the observers is the old delta moved by one |
| UserController.LikeUnlikeRoundTrip | WxSpringBootProject/src/main/java/com/happysnaker/controller/UserController.java:65-105 | an unlike undoes a like that flushed nothing, and a like undoes an unlike that flushed nothing |
| UserController.Controller.constructor | WxSpringBootProject/src/main/java/com/happysnaker/controller/UserController.java:81-83 | no delta has been handed to the observers yet |
| UserController.Controller.AddUserLikeDish | WxSpringBootProject/src/main/java/com/happysnaker/controller/UserController.java:56-89 | a missing user or a non-numeric dish is a parameter error with nothing changed; otherwise the service's answer is returned, and only an "OK" updates the hash by the like rule and notifies a flushed delta |
| UserController.Controller.RemoveUserLikeDish | WxSpringBootProject/src/main/java/com/happysnaker/controller/UserController.java:91-109 | a non-numeric dish answers null with nothing changed; otherwise the service's answer is returned, and only an "OK" updates the hash by the unlike rule and notifies a flushed delta |
| CacheManager.OrderMessageKeyInjective | WxSpringBootProject/src/main/java/com/happysnaker/config/RedisCacheManager.java:64-66 | distinct message ids give distinct marker keys |
| CacheManager.DishStockKeyInjective | WxSpringBootProject/src/main/java/com/happysnaker/config/RedisCacheManager.java:69-71 | distinct stores give distinct stock keys |
| CacheManager.StockKeyIsNoOtherKey | WxSpringBootProject/src/main/java/com/happysnaker/config/RedisCacheManager.java:31-71 | no stock key is one of the fixed keys or a marker key |
| CacheManager.MarkerKeyIsNoOtherKey | WxSpringBootProject/src/main/java/com/happysnaker/config/RedisCacheManager.java:48-110 | no marker key is the waiting queue's key or a day's sales-counter key |
| CacheManager.UserBitmapKeysDistinct | WxSpringBootProject/src/main/java/com/happysnaker/config/RedisCacheManager.java:81-95 | the four per-user bitmap keys never collide, for any two users |
| CacheManager.NoTimeToLiveIsAbsent | WxSpringBootProject/src/main/java/com/happysnaker/config/RedisCacheManager.java:117-123 | a key without a time to live never counts as present, even when it exists |
| CacheManager.AddIfAbsentForValue | WxSpringBootProject/src/main/java/com/happysnaker/config/RedisCacheManager.java:142-147 | the value and its time to live are written exactly when the key is not present; otherwise nothing changes |
| CacheManager.GetBitInt | WxSpringBootProject/src/main/java/com/happysnaker/config/RedisCacheManager.java:130-132 | 1 for a set bit and 0 otherwise |
| CacheManager.SetBitInt | WxSpringBootProject/src/main/java/com/happysnaker/config/RedisCacheManager.java:138-140 | any non-zero value sets the bit and 0 clears it |
| CacheManager.InitRedisUserMarkedCache | WxSpringBootProject/src/main/java/com/happysnaker/config/RedisCacheManager.java:172-182 | bit i is set exactly when i is among the ids, for every i in the full list, and the key lives an hour |
| CacheManager.PairsToHash | WxSpringBootProject/src/main/java/com/happysnaker/config/RedisCacheManager.java:191-193 | the hash holds exactly the listed fields, and each field maps to the value of its last pair |
| CacheManager.InitRedisDishMakeTimeCache | WxSpringBootProject/src/main/java/com/happysnaker/config/RedisCacheManager.java:189-195 | every listed dish maps to its make time, nothing else is in the hash, and it lives an hour |
| CacheManager.FlushRedisDishStockCache | WxSpringBootProject/src/main/java/com/happysnaker/config/RedisCacheManager.java:203-224 | every listed dish's field holds its durable stock; the old hash is dropped first only when it is present |
| CacheManager.PutAll | WxSpringBootProject/src/main/java/com/happysnaker/config/RedisCacheManager.java:220-222 | each field of the map is written into the hash; other fields and keys are unchanged |

## Left out

- Concurrency: locks, `synchronized` blocks and the broker's delivery threads are modelled as sequential runs. A lock in `Strategies.LockMap` is an object identity: taking and releasing it are not observable.
- HTTP, JSON encoding and the broker's wire format are left out. A message that cannot be decoded is the `None` case of the consumer's input.
- Money is Java `double` in the source and whole cents (`int`) here, so floating-point rounding is not modelled.
- UUIDs, the clock and whether a broker send succeeds are parameters of the operations that use them.
- Strategies.CheckStock: the source retries through a recursive call after a null-pointer failure. The model rebuilds the cache exactly once, and a second miss is `None` instead of another retry.
- OrderService.GetWaitingTime: the same holds for the make-time cache. One rebuild, then `None`.
- The controller's call into the placement and its 409 JSON answer are left out. `OrderService.CartStore.PlaceOrder` models what the service does.
- The order service's getUserOrders, pay, deleteOrder and updateFinalTime are not part of this model.
- OrderServiceImpl's private checkStock and its getDishNumMap repeat the strategy versions. Those are modelled once, in `Strategies.CheckStock` and `DishNumMaps.GetDishNumMap`.
- The like flush threshold is a constant of the controllers' base class, which is not part of this model, so it is a parameter. The user service's answer is a parameter too.
- The observers' notification (`notifyObservers`) is a log of notifications. The observers' database writes are not modelled.
- Redis time to live runs out only where an operation calls `RedisStore.Redis.Elapse`. Elsewhere no time passes, so a key that has a time to live stays present.
- Consumer.DoAddOrder: a marker expires only where `Consumer.DeliverAfterMarkerLapses` lets 180 seconds pass. The source's continuation reuses its order's id as the message id, so within those 180 seconds a continuation for a just-committed order is dropped. After them it is consumed. No time passes between the deliveries chained elsewhere in the model.
- Consumer.DeliverTwice: at-most-once is stated for a redelivery with no time passing between the deliveries. In the source it holds only while the marker lives, that is for 180 seconds.
- The mappers (MyBatis) and comboMapper's combo lookup are tables of the `Database` class. The SQL itself is not modelled.
- The status constants of the order service and the cache-key prefixes are Dafny constants with the source's values.
- The mini-app page's rendering, network calls and toasts are left out. `DishOrderPage` keeps only the data the page computes.

## Findings

| source | as written | input that shows it | evidently intended | confidence | as-written member | corrected member |
|---|---|---|---|---|---|---|
| WxSpringBootProject/src/main/java/com/happysnaker/strategy/impl/PessimisticPlaceOrderStrategy.java:45 | the lock key is `(dishId << 32) \| storeId` on Java `int`, where a shift by 32 is a shift by 0 | dish 1 at store 2 and dish 3 at store 0 both give key 3 and share a lock | one lock per (dish, store) pair, with the dish widened to `long` before the shift | not executed | Strategies.LockKeyAsWrittenCollides | Strategies.LockKeyInjective |
| WxSpringBootProject/src/main/java/com/happysnaker/service/impl/OrderConsumerImpl.java:106 | the consumer passes the message's map to addToWaitingQueue, and the pessimistic strategy sends a null map, so every pessimistic message fails there and is rejected | any message sent by the pessimistic strategy | the waiting queue gets the units of the order's lines, and the commit goes through | not executed | CommitProperties.PessimisticMessageFailsAsWritten | CommitProperties.PessimisticMessageCommits |
| WxSpringBootProject/src/main/java/com/happysnaker/service/impl/OrderConsumerImpl.java:258 | the dead-letter listener dereferences the message's map after cancelling the order and telling the customer; a pessimistic placement's message has no map, so the exception rolls the transaction back | any pessimistic message the commit rejected | cancel the order and tell the customer, and send nothing for rollback, since no cached stock was taken | not executed | Consumer.FailedPessimisticNeverTold | Consumer.DeadOrderMessageHandlerChecked |
| WxSpringBootProject/src/main/java/com/happysnaker/controller/OrderController.java:171 | the relieve request skips the cart when its customer differs from the requester, but the cart is looked up by the requester's own id | any request: the test never holds | free the table when the cart matches the table requested | not executed | OrderController.RelievesAsWrittenNever | OrderController.RelieveOccupied |
| WxSpringBootProject/src/main/java/com/happysnaker/config/ScheduledTask.java:113 | the store's field of the day's sales counter is unboxed to `int`, which throws when the store sold nothing today | two stores, only the first with sales today | log 0 sales for that store and carry on | not executed | ScheduledTask.UnsoldStoreAbortsAsWritten | ScheduledTask.DoTask2 |
