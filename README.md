# Virtual café: a verified model of the barista server

The barista server runs a virtual café. Customers connect over a socket, give a
name, and type commands: `order 2 teas and 1 coffee`, `order status`, `collect`,
`exit`. The café keeps three areas:
- a waiting area, a FIFO queue of ordered drinks;
- a brewing area, at most two teas and two coffees at a time, each brewed by its own
  timer thread (30 s for a tea, 45 s for a coffee);
- a tray per customer, holding finished drinks until they are collected.

Each connected customer has an `Order`: six counters for their teas and coffees that
are waiting, brewing or ready.

This project models the core of the server in Dafny:

| file | module | what it models |
|---|---|---|
| `items.dfy` | `Items` | `OrderItem`: kind, owner, brew time, text form |
| `orders.dfy` | `Orders` | `Order`: the counters as a value (`Counters`) with `isIdle`/`isComplete`, and the `Order` class with its setters |
| `areas.dfy` | `Areas` | the areas as sequences: counting, removing a customer's items, and the admission scan of `startBrewingIfCapacityAvailable` (`Scan`) |
| `cafe_spec.dfy` | `CafeSpec` | the whole café as a value `CafeState`, every operation as a transition function, and the café invariant `Inv` |
| `virtual_cafe.dfy` | `Cafe` | the `VirtualCafe` class with its fields changed in place; each method is proved to perform the `CafeSpec` transition and keep `Valid()` |
| `commands.dfy` | `Commands` | `parseOrderCommand` (the loop and its grammar), Java `int` overflow, `Integer.parseInt`, and the classification of a typed line |
| `session.dfy` | `Session` | a customer session: the name handshake, one typed line (classify, run the café operation, reply), and the cleanup after `exit` |

The café invariant `CafeSpec.Inv` has four parts:
- `Placed`: every item in an area belongs to a connected customer, and a tray holds only its owner's items.
- `WithinCapacity`: each brewing counter is at most 2, and at least the number of items of that kind in the brewing area.
- `Agrees`: every connected customer's `Order` counters equal the number of their items of each kind in each area.
- `Fresh`: every item held in an area or by a running brewing thread was numbered below the id counter, so the items an order creates are new.

Every state-changing operation is proved to keep `Inv`.

Threads are not modelled as threads. A started brewing thread is an item in the ghost
multiset `inFlight`. Its callback is `FinishBrewing`, which may run for any item that
`CafeSpec.CanFinish` allows, in any order. Completion notices written to a client's
`PrintWriter` are collected in the ghost sequence `notices`.

Some of the source's behaviour is modelled exactly as written:
- **Disconnect leaks brewing slots.** `customerDisconnected` removes a customer's brewing items but leaves `currentBrewingTeas`/`currentBrewingCoffees` unchanged. `finishBrewing` for a disconnected customer returns before releasing the slot. `DisconnectPurges` and `FinishServesOwner` state this, and `WithinCapacity` only requires each counter to be at least the number of brewing items.
- **Quantities in an order line overflow.** They are summed in Java `int` arithmetic (`Wrap32`), and an order is handled with the wrapped sums (`Session.OrderOutcome`). A sum that wraps to a negative int is refused by `placeOrder` as a negative quantity: `order 2147483647 tea and 1 tea` parses to `-2147483648` teas (`Session.OverflowIsRefused`). A sum that wraps all the way round is accepted with the wrong quantity: `order 2147483647 tea and 2147483647 tea and 3 tea` is received as 1 tea (`Session.WrongQuantityReceived`).

## Model

| member | source | states |
|---|---|---|
| Items.BrewTimeMs | Code/helpers/barista/OrderItem.java:32-34 | the brew time is positive and at most the coffee brew time |
| Items.BrewTimeByKind | Code/helpers/barista/OrderItem.java:32-34 | a tea brews 30000 ms and a coffee 45000 ms |
| Items.Describe | Code/helpers/barista/OrderItem.java:37-39 | the text is the kind's enum name, then " for ", then the customer's name (prefix, middle, suffix and length) |
| Items.DescribeDeterminesKindAndOwner | Code/helpers/barista/OrderItem.java:37-39 | two items with the same text have the same kind and the same owner |
| Orders.Idle | Code/helpers/barista/Order.java:48-51 | an order is idle exactly when its total item count (getTotalItems) is zero |
| Orders.Complete | Code/helpers/barista/Order.java:53-56 | a complete order is not idle, and all its items are ready |
| Orders.NoItemsIsIdle | Code/helpers/barista/Order.java:25-27 | a new order (all counters zero) is idle, not complete, and has no items |
| Orders.IdleMeansNoItems | Code/helpers/barista/Order.java:48-51 | with non-negative counters, idle holds exactly when all six counters are zero |
| Orders.CompleteMeansAllReady | Code/helpers/barista/Order.java:53-56 | with non-negative counters, complete holds exactly when nothing waits or brews and at least one item is ready |
| Orders.Order.constructor | Code/helpers/barista/Order.java:25-27 | a new Order keeps the customer's name, has every counter at zero and has no writer |
| Orders.Order.SetTeasWaiting | Code/helpers/barista/Order.java:39 | only teasWaiting changes, to the given value |
| Orders.Order.SetCoffeesWaiting | Code/helpers/barista/Order.java:40 | only coffeesWaiting changes, to the given value |
| Orders.Order.SetTeasBrewing | Code/helpers/barista/Order.java:41 | only teasBrewing changes, to the given value |
| Orders.Order.SetCoffeesBrewing | Code/helpers/barista/Order.java:42 | only coffeesBrewing changes, to the given value |
| Orders.Order.SetTeasReady | Code/helpers/barista/Order.java:43 | only teasReady changes, to the given value |
| Orders.Order.SetCoffeesReady | Code/helpers/barista/Order.java:44 | only coffeesReady changes, to the given value |
| Orders.Order.SetClientWriter | Code/helpers/barista/Order.java:45 | the Order gets a writer; its counters are unchanged |
| Orders.Order.IsIdle | Code/helpers/barista/Order.java:48-61 | idle exactly when getTotalItems is zero |
| Orders.Order.IsComplete | Code/helpers/barista/Order.java:53-56 | a complete Order is never idle |
| Orders.Order.TotalItems | Code/helpers/barista/Order.java:58-61 | with non-negative counters the total is non-negative, and zero exactly when every counter is zero |
| Areas.BatchCounts | Code/helpers/barista/VirtualCafe.java:96-101 | a batch of n new items of one kind for one customer holds exactly n items of that customer and kind, and none of any other |
| Areas.Batch | Code/helpers/barista/VirtualCafe.java:96-101 | n items, the k-th numbered first id + k, all for the given customer and of the given kind |
| Areas.Without | Code/helpers/barista/VirtualCafe.java:65-66 | every item left was in the area and belongs to someone else |
| Areas.WithoutKeepsOthers | Code/helpers/barista/VirtualCafe.java:65-66 | removing a customer's items keeps every other customer's items and counts, and leaves none of theirs |
| Areas.WithoutShrinks | Code/helpers/barista/VirtualCafe.java:65-66 | removing a customer's items yields a sub-multiset of the area |
| Areas.WithoutIsIdempotent | Code/helpers/barista/VirtualCafe.java:65-66 | purging a customer's items a second time removes nothing more |
| Areas.RemoveFirstRemoves | Code/helpers/barista/VirtualCafe.java:268 | brewingArea.remove(item) takes exactly one occurrence of the item out, or changes nothing if it is absent |
| Areas.RemoveFirstCounts | Code/helpers/barista/VirtualCafe.java:268 | removing a brewing item lowers the count of its owner and kind by one and no other count |
| Areas.RemoveFirst | Code/helpers/barista/VirtualCafe.java:268 | the list shrinks by one exactly when the item was in it |
| Areas.ScanInterleaves | Code/helpers/barista/VirtualCafe.java:197-232 | one pass over the waiting area splits it into the started items and the kept items, each in queue order |
| Areas.InterleavingItems | Code/helpers/barista/VirtualCafe.java:197-232 | no item is lost or duplicated by the pass: started plus kept is the waiting area as a multiset |
| Areas.ScanFifoPerKind | Code/helpers/barista/VirtualCafe.java:197-232 | per kind, the started items are a prefix of that kind's queue order (first come, first brewed) |
| Areas.ScanSkipsFullKind | Code/helpers/barista/VirtualCafe.java:205-230 | no item of a kind already at capacity is started |
| Areas.ScanRespectsCapacity | Code/helpers/barista/VirtualCafe.java:197-232 | after the pass each kind is within capacity, and an item of a kind is still waiting only if that kind is full |
| Areas.ScanAtCapacity | Code/helpers/barista/VirtualCafe.java:197-232 | when every waiting kind is full, the pass starts nothing |
| CafeSpec.OpeningIsValid | Code/helpers/barista/VirtualCafe.java:37-47 | the empty café satisfies the invariant |
| CafeSpec.Connect | Code/helpers/barista/VirtualCafe.java:54-59 | the connected customers become the old ones plus the name; existing Orders and everything else stay as they were |
| CafeSpec.Disconnect | Code/helpers/barista/VirtualCafe.java:61-70 | the name is no longer connected, and every item left waiting or brewing was there before and belongs to someone else |
| CafeSpec.BindWriter | Code/helpers/barista/VirtualCafe.java:73-78 | Orders are unchanged; the name has a writer afterwards exactly when it had one or is connected; nobody else's writer changes |
| CafeSpec.ConnectKeepsInv | Code/helpers/barista/VirtualCafe.java:54-59 | customerConnected keeps the invariant |
| CafeSpec.ConnectIsIdempotent | Code/helpers/barista/VirtualCafe.java:54-59 | connecting twice is connecting once, and a customer who was not known gets an idle Order |
| CafeSpec.DisconnectKeepsInv | Code/helpers/barista/VirtualCafe.java:61-70 | customerDisconnected keeps the invariant |
| CafeSpec.DisconnectPurges | Code/helpers/barista/VirtualCafe.java:61-70 | afterwards the customer has no Order, tray or writer and no item in waiting or brewing; other customers' items stay, and every other customer keeps their Order, tray and writer; the brewing counters, running threads, id counter and notices are unchanged |
| CafeSpec.DisconnectIsIdempotent | Code/helpers/barista/VirtualCafe.java:61-70 | disconnecting a customer twice is the same as disconnecting once |
| CafeSpec.BindWriterKeepsInv | Code/helpers/barista/VirtualCafe.java:73-78 | setClientWriter keeps the invariant |
| CafeSpec.EnqueueKeepsInv | Code/helpers/barista/VirtualCafe.java:91-101 | raising the waiting counters and queueing the items keeps the invariant |
| CafeSpec.EnqueueAppends | Code/helpers/barista/VirtualCafe.java:91-101 | the old queue is a prefix; the new tail is the customer's teas, then their coffees, numbered consecutively from the id counter, which advances past them; the customer's waiting counters rise by the ordered amounts and nothing else in their Order changes; other Orders, the brewing area, trays, writers, brewing counters, threads and notices are untouched |
| CafeSpec.Enqueue | Code/helpers/barista/VirtualCafe.java:91-101 | the queue grows by the ordered number of items with the old queue as a prefix, the id counter advances by that number, and the customer's total rises by it |
| CafeSpec.EnqueueItemsAreNew | Code/helpers/barista/VirtualCafe.java:96-101 | the items an order queues are new: none is already waiting, brewing, on a tray or held by a thread, and the café stays fresh |
| CafeSpec.PlaceOrderErrors | Code/helpers/barista/VirtualCafe.java:80-105 | unknown customer and negative quantity are the only errors, in that order, and an error changes nothing |
| CafeSpec.PlaceOrder | Code/helpers/barista/VirtualCafe.java:80-105 | an error changes nothing; a placed order advances the id counter by the ordered quantities and connects or disconnects nobody |
| CafeSpec.PlaceOrderKeepsInv | Code/helpers/barista/VirtualCafe.java:80-105 | placeOrder keeps the invariant |
| CafeSpec.AdmitKeepsInv | Code/helpers/barista/VirtualCafe.java:197-232 | startBrewingIfCapacityAvailable keeps the invariant |
| CafeSpec.AdmitKeepsFresh | Code/helpers/barista/VirtualCafe.java:197-232 | the admission pass creates no item, so the café stays fresh |
| CafeSpec.AdmitFrame | Code/helpers/barista/VirtualCafe.java:197-232 | the pass moves items from waiting to brewing without losing or adding any (as a multiset); customers, trays, writers, notices and the id counter are unchanged |
| CafeSpec.AdmitOne | Code/helpers/barista/VirtualCafe.java:205-230 | one more brewing slot is taken, the owner's total is unchanged, the item gets a thread, and customers and trays are unchanged |
| CafeSpec.AdmitRespectsCapacity | Code/helpers/barista/VirtualCafe.java:197-232 | afterwards at most two teas and two coffees brew, and a kind still has waiting items only if its two slots are taken |
| CafeSpec.AdmitIsIdempotent | Code/helpers/barista/VirtualCafe.java:197-232 | a second pass right after the first starts nothing |
| CafeSpec.AdmitIsFifoPerKind | Code/helpers/barista/VirtualCafe.java:197-232 | the brewing area only grows at its end; per kind, the newly brewing items followed by the still-waiting ones are the old queue in order |
| CafeSpec.ShiftAllKeepsCompleteness | Code/helpers/barista/VirtualCafe.java:207-213 | moving items from waiting to brewing changes neither whether an Order is idle or complete nor its ready counts |
| CafeSpec.FinishKeepsInv | Code/helpers/barista/VirtualCafe.java:250-274 | finishBrewing keeps the invariant |
| CafeSpec.Serve | Code/helpers/barista/VirtualCafe.java:256-269 | the brewing counter of the item's kind drops by one, the item goes to the end of its owner's tray, and the customers are unchanged |
| CafeSpec.ServeReleasesSlot | Code/helpers/barista/VirtualCafe.java:256-269 | the kind's brewing counter drops by one, one copy of the item leaves the brewing area, the owner's brewing count of the kind drops by one and the ready count rises by one (total unchanged), the item is appended to the owner's tray; other Orders and trays, waiting area, writers and threads are unchanged |
| CafeSpec.ServeKeepsFresh | Code/helpers/barista/VirtualCafe.java:256-269 | serving creates no item, so the café stays fresh |
| CafeSpec.NotifyIfComplete | Code/helpers/barista/VirtualCafe.java:277-287 | only the notices change: one notice with the customer's ready counts is added exactly when the Order is complete and a writer is bound |
| CafeSpec.FinishBrewing | Code/helpers/barista/VirtualCafe.java:250-274 | customers, writers and the id counter are unchanged; for a disconnected owner the brewing area and both brewing counters are unchanged, so the slot is not given back |
| CafeSpec.FinishFreesSlot | Code/helpers/barista/VirtualCafe.java:250-274 | in a valid café, serving an item of a connected owner leaves its kind below capacity before the re-scan, and after it a kind has items waiting only if all its slots are taken |
| CafeSpec.FinishServesOwner | Code/helpers/barista/VirtualCafe.java:250-287 | for a disconnected owner only the thread ends; otherwise, before the re-scan, the item's brewing counter has dropped by one and one copy of the item has left the brewing area, and the result is that re-scan; the item ends up at the end of the owner's tray, its ready counter rises by one, and exactly one notice is written when the Order is now complete and has a writer |
| CafeSpec.StatusReflectsAreas | Code/helpers/barista/VirtualCafe.java:107-139 | the status says "no order" exactly when the customer has no item anywhere, and it has a line for an area exactly when they have an item there, with the tray's true counts |
| CafeSpec.OrderStatus | Code/helpers/barista/VirtualCafe.java:107-139 | an error exactly for an unknown customer, and "no order found" exactly for an idle Order |
| CafeSpec.CompleteMeansTrayOnly | Code/helpers/barista/VirtualCafe.java:142-148 | an Order is complete exactly when the customer has nothing waiting or brewing and something on the tray |
| CafeSpec.OrderComplete | Code/helpers/barista/VirtualCafe.java:142-148 | an error exactly for an unknown customer; a complete Order is never idle |
| CafeSpec.CollectOrderCases | Code/helpers/barista/VirtualCafe.java:151-179 | the four outcomes: unknown customer, nothing to collect, order pending (all three change nothing), or the tray's teas and coffees are handed over, leaving an empty Order and no tray while every other customer's Order and tray, the waiting and brewing areas, writers, counters, threads, notices and the id counter stay as they were |
| CafeSpec.CollectKeepsInv | Code/helpers/barista/VirtualCafe.java:151-179 | collectOrder keeps the invariant |
| CafeSpec.CollectOrder | Code/helpers/barista/VirtualCafe.java:151-179 | an error or "nothing to collect" changes nothing; a collection leaves the customer connected with no tray |
| CafeSpec.Clients | Code/helpers/barista/VirtualCafe.java:181-183 | zero exactly when no customer is connected |
| CafeSpec.Busy | Code/helpers/barista/VirtualCafe.java:185-193 | only connected customers are counted |
| CafeSpec.BusyMeansHolding | Code/helpers/barista/VirtualCafe.java:185-193 | the customers counted as waiting are exactly those with an item in some area |
| Cafe.VirtualCafe.constructor | Code/helpers/barista/VirtualCafe.java:37-47 | the café opens empty and valid |
| Cafe.VirtualCafe.CustomerConnected | Code/helpers/barista/VirtualCafe.java:54-59 | performs Connect and stays valid |
| Cafe.VirtualCafe.CustomerDisconnected | Code/helpers/barista/VirtualCafe.java:61-70 | performs Disconnect and stays valid |
| Cafe.VirtualCafe.SetClientWriter | Code/helpers/barista/VirtualCafe.java:73-78 | performs BindWriter and stays valid |
| Cafe.VirtualCafe.QueueItems | Code/helpers/barista/VirtualCafe.java:96-101 | the loop appends exactly n items of the kind for the customer, numbered consecutively from the id counter, which advances by n (EnqueueItemsAreNew shows such items are new) |
| Cafe.VirtualCafe.QueueOrder | Code/helpers/barista/VirtualCafe.java:91-101 | performs Enqueue |
| Cafe.VirtualCafe.PlaceOrder | Code/helpers/barista/VirtualCafe.java:80-105 | returns the error and new state that CafeSpec.PlaceOrder gives, and stays valid |
| Cafe.VirtualCafe.MoveToBrewing | Code/helpers/barista/VirtualCafe.java:205-230 | one item moves from waiting to brewing, with its counters |
| Cafe.VirtualCafe.StartBrewingIfCapacityAvailable | Code/helpers/barista/VirtualCafe.java:197-232 | the loop over the waiting area ends in the state that Admit (the Scan pass) gives |
| Cafe.VirtualCafe.MoveToTray | Code/helpers/barista/VirtualCafe.java:256-269 | one item moves from brewing to its owner's tray, with its counters |
| Cafe.VirtualCafe.FinishBrewing | Code/helpers/barista/VirtualCafe.java:250-274 | performs CafeSpec.FinishBrewing and stays valid |
| Cafe.VirtualCafe.CheckOrderCompletion | Code/helpers/barista/VirtualCafe.java:277-287 | performs NotifyIfComplete |
| Cafe.VirtualCafe.GetOrderStatus | Code/helpers/barista/VirtualCafe.java:107-139 | returns OrderStatus, whose meaning StatusReflectsAreas states |
| Cafe.VirtualCafe.IsOrderComplete | Code/helpers/barista/VirtualCafe.java:142-148 | returns OrderComplete, whose meaning CompleteMeansTrayOnly states |
| Cafe.VirtualCafe.CollectOrder | Code/helpers/barista/VirtualCafe.java:151-179 | performs CafeSpec.CollectOrder, whose cases CollectOrderCases states, and stays valid |
| Cafe.VirtualCafe.GetNumberOfClients | Code/helpers/barista/VirtualCafe.java:181-183 | returns the number of connected customers |
| Cafe.VirtualCafe.GetNumberOfClientsWaiting | Code/helpers/barista/VirtualCafe.java:185-193 | the counting loop returns the number of customers whose Order is not idle |
| Commands.Wrap32 | Code/helpers/barista/CustomerHandler.java:171-173 | Java's `+=` on int always gives a value in the 32-bit range |
| Commands.Wrap32Add | Code/helpers/barista/CustomerHandler.java:171-173 | wrapping after every addition is the same as wrapping once at the end |
| Commands.IntSumWraps | Code/helpers/barista/CustomerHandler.java:171-173 | the running int total is the true sum wrapped to 32 bits |
| Commands.ParseInt | Code/helpers/barista/CustomerHandler.java:150-155 | a number that parses is within the int range |
| Commands.ParseIntDecimal | Code/helpers/barista/CustomerHandler.java:150-155 | the decimal text of every int from 0 to 2^31 - 1 parses back to that number |
| Commands.ParseOrderCommand | Code/helpers/barista/CustomerHandler.java:132-198 | the loop returns exactly what the clause grammar ParseOrder gives |
| Commands.ParseFrom | Code/helpers/barista/CustomerHandler.java:143-190 | a result the loop returns never has both counts zero |
| Commands.ParseOrder | Code/helpers/barista/CustomerHandler.java:132-198 | fewer than three words is "too few words", and a result never has both counts zero |
| Commands.ClausesOfRender | Code/helpers/barista/CustomerHandler.java:143-190 | reading clauses back from their rendered words gives the same clauses |
| Commands.ParseFromRendered | Code/helpers/barista/CustomerHandler.java:143-190 | from any position, a run of valid clauses joined by "and" parses to the running totals plus the clauses' int sums |
| Commands.RenderedIfParsed | Code/helpers/barista/CustomerHandler.java:143-190 | from any position, a loop that gets through to the end has read a run of valid clauses joined by "and" |
| Commands.ParseOrderAccepts | Code/helpers/barista/CustomerHandler.java:132-198 | "order" followed by valid clauses joined by "and" gives the int-wrapped sums of the tea and coffee quantities (or "no items" if both are zero) |
| Commands.ParseOrderAcceptsOnlyClauses | Code/helpers/barista/CustomerHandler.java:132-198 | conversely, every line the loop gets through is "order" followed by valid clauses, and its result is those wrapped sums |
| Commands.FirstClauseErrors | Code/helpers/barista/CustomerHandler.java:137-189 | the first error met: fewer than three words, not a number, not positive, unknown item, a word other than "and", or "and" with nothing after it |
| Commands.CompletedEndsWithItem | Code/helpers/barista/CustomerHandler.java:166-189 | every line the loop gets through ends in a tea or coffee word |
| Commands.RejectsDanglingEnd | Code/helpers/barista/CustomerHandler.java:166-189 | a line whose last word is not a tea or coffee word (for example a trailing "and") is always rejected by the loop |
| Commands.SumsPositive | Code/helpers/barista/CustomerHandler.java:157-159 | valid clauses have non-negative sums per kind and a positive total |
| Commands.ParsedWithoutOverflow | Code/helpers/barista/CustomerHandler.java:132-198 | without overflow, an accepted order gives the exact per-kind sums, both non-negative, with a positive total |
| Commands.NothingOrderedOnlyOnOverflow | Code/helpers/barista/CustomerHandler.java:193-195 | "No items ordered" is reported only when a sum passed 2^31 - 1 |
| Commands.OverflowWraps | Code/helpers/barista/CustomerHandler.java:171-173 | 2147483647 teas and 1 tea parse to -2147483648 teas |
| Commands.OverflowIsReachable | Code/helpers/barista/CustomerHandler.java:171-173 | the same for the decimal texts of 2^31 - 1 and 1 |
| Commands.OverflowWrapsToPositive | Code/helpers/barista/CustomerHandler.java:171-173 | 2147483647 teas, 2147483647 teas and 3 teas parse to 1 tea |
| Commands.PositiveOverflowIsReachable | Code/helpers/barista/CustomerHandler.java:171-173 | the same for the decimal texts of 2^31 - 1 and 3 |
| Commands.Lower | Code/helpers/barista/CustomerHandler.java:55 | lower-casing keeps the length |
| Commands.TrimStart | Code/helpers/barista/CustomerHandler.java:48 | drops exactly the leading characters up to ' ' and stops at one above it |
| Commands.TrimEnd | Code/helpers/barista/CustomerHandler.java:48 | drops exactly the trailing characters up to ' ' and stops at one above it |
| Commands.Trim | Code/helpers/barista/CustomerHandler.java:48 | the line gets no longer, and a non-empty result starts and ends with a character above ' ' |
| Commands.WordsFrom | Code/helpers/barista/CustomerHandler.java:56 | splitting on whitespace gives non-empty words without whitespace |
| Commands.Words | Code/helpers/barista/CustomerHandler.java:56 | every word is non-empty and holds no whitespace |
| Commands.WordsOfJoin | Code/helpers/barista/CustomerHandler.java:56 | splitting words joined by single spaces gives those words back |
| Commands.ClassifyBlank | Code/helpers/barista/CustomerHandler.java:48-52 | a line is skipped exactly when all its characters are at most ' ' |
| Commands.Classify | Code/helpers/barista/CustomerHandler.java:48-56 | a line is blank exactly when its trimmed form is empty; an unknown command carries the trimmed, lower-cased line |
| Commands.Match | Code/helpers/barista/CustomerHandler.java:62-101 | a non-empty line is never blank; status and order lines start with "order", and an order's first word does |
| Commands.ClassifyPrecedence | Code/helpers/barista/CustomerHandler.java:62-101 | on the trimmed, lower-cased line: status iff it starts with "order status"; order iff it starts with "order" but not "order status"; collect iff it is "collect"; exit iff it is "exit" |
| Commands.OrderLineWords | Code/helpers/barista/CustomerHandler.java:55-70 | an order line's words are non-empty and the first starts with "order" |
| Commands.ClassifyIgnoresCase | Code/helpers/barista/CustomerHandler.java:55 | commands are case-insensitive: lower-casing a line first changes nothing |
| Session.StartKeepsInv | Code/helpers/barista/CustomerHandler.java:36-42 | starting a session, or refusing an empty name, keeps the café invariant |
| Session.StartConnects | Code/helpers/barista/CustomerHandler.java:36-42 | a session starts exactly when the trimmed name is non-empty; the customer is then connected with a writer, keeping their existing Order or getting an idle one |
| Session.Start | Code/helpers/barista/CustomerHandler.java:36-42 | a name is returned only when it is non-empty, and the connected customers become the old ones plus it; an empty name only disconnects the empty name |
| Session.HandleOrderKeepsInv | Code/helpers/barista/CustomerHandler.java:70-86 | parsing and placing an order keeps the café invariant |
| Session.HandleOrder | Code/helpers/barista/CustomerHandler.java:70-86 | the reply is a parse error, a refusal or a receipt; only a receipt changes the café, and it names the customer, who is connected, with non-negative counts and a positive total by which the id counter advances; customers are unchanged |
| Session.OrderOutcome | Code/helpers/barista/CustomerHandler.java:70-86 | for every line the parser gets through, with the wrapped per-kind sums: both zero is "no items ordered", either negative is refused, otherwise the order is placed and acknowledged with those sums |
| Session.WrongQuantityReceived | Code/helpers/barista/CustomerHandler.java:70-81 | the line "order 2147483647 tea and 2147483647 tea and 3 tea" is accepted and places 1 tea |
| Session.HandleLineKeepsInv | Code/helpers/barista/CustomerHandler.java:47-102 | whatever line a customer types, the café invariant holds afterwards |
| Session.HandleLine | Code/helpers/barista/CustomerHandler.java:47-102 | no line connects anyone, and after a goodbye the customer is no longer connected |
| Session.HandleLineChangesOnlyOnEffect | Code/helpers/barista/CustomerHandler.java:47-102 | blank lines, status requests, unknown commands and rejected orders leave the café unchanged |
| Session.OrderLineReceived | Code/helpers/barista/CustomerHandler.java:70-81 | a connected customer's valid order without overflow is placed with the exact sums and acknowledged with them |
| Session.ExitCleanupIsHarmless | Code/helpers/barista/CustomerHandler.java:94-99 | after "exit" the customer is gone, and the second disconnect of the cleanup at lines 116-120 changes nothing |
| Session.OverflowIsRefused | Code/helpers/barista/CustomerHandler.java:70-86 | the line "order 2147483647 tea and 1 tea" is refused as a negative quantity and changes nothing |

## Left out

- Sockets and `Scanner`/`PrintWriter` I/O are not modelled; the welcome and greeting texts of `CustomerHandler.run` are left out. A reply is the value `Session.Reply`, not the text written; the error message strings are constructors of `ParseError` and `CafeError`.
- `logState`, `writeJsonLog` and `removeLastClosingBracket` (file logging of the café state as JSON) and console output are not modelled.
- `startBrewingThread` and thread scheduling are not modelled as threads. A started thread is an element of the ghost `inFlight` multiset, and its callback `FinishBrewing` may be called for any item that `CanFinish` allows. `Thread.sleep` durations appear only as `BrewTimeMs`.
- `CanFinish` excludes one interleaving: a customer disconnects and reconnects under the same name while one of their items is still brewing. That item would be missing from the brewing area when its callback runs. The model leaves this case out.
- The café holds each customer's Order by value: `customers` maps a name to its `Counters`, and `clientWriters` is the set of names with a writer. The `Order` class is modelled on its own in `orders.dfy`. No aliasing is lost, because the café never hands out its Order objects.
- A `PrintWriter` is reduced to whether one is bound. A completion notice is a `Notice` value appended to the ghost `notices`, not text.
- Orders.Order: the six counters are unbounded integers; Java's 32-bit overflow of the Order counters and of `getTotalItems` is not modelled. `placeOrder` checks only that the quantities are not negative (`VirtualCafe.java` lines 86-89), so a counter could pass 2^31 - 1 only once that many items were queued, each one an object in the waiting area; the model does not bound memory.
- Commands.Lower: lower-casing covers ASCII letters only; Java's Unicode `toLowerCase` is not modelled.
- Commands.IsSpace: the whitespace of `trim` is taken as every character up to U+0020, as Java's `String.trim` does. The `\s+` split uses the ASCII whitespace characters.
- Commands.ParseInt: only ASCII digits are accepted. Java's `Integer.parseInt` also accepts other Unicode decimal digits.
- The check `words.length == 0` in `CustomerHandler.java` (lines 58-60) cannot fire after a non-blank trimmed line. The check `i >= words.length` at the top of the loop (lines 145-147) cannot fire inside `while (i < words.length)`. Neither is modelled.
- The `NumberFormatException` handler at `CustomerHandler.java` line 82 is unreachable, because `parseOrderCommand` turns every such exception into a plain `Exception`. It is not modelled.
- The disconnect in the `finally` block of `CustomerHandler.run` is modelled only after `exit` (`Session.ExitCleanupIsHarmless`) and after an empty name (`Session.Start`). A session ended by a socket error is not modelled.
- `Barista.java`, the server entry point accepting sockets, and `Customer.java`, the client program, are not part of this model.
