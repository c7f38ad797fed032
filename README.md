# Order pipeline core, modelled in Dafny

The system is a three-service order pipeline:

- The order service accepts an order, stores it and announces it.
- The inventory service checks every item of the order against a product catalog and publishes an approval or a rejection.
- The notification service announces that result to the customer.

Two services must survive an outage of the shared remote key-value store:

- The order service's **resilient order store** (`OrderCacheServiceImpl`) buffers failed writes in two in-process maps, `localCache` and `pendingItemsToStoreInRedis`. A periodic sweep replays them, and reads fall back to the local copy.
- The notification service's **pending-notification queue** (`NotificationServiceImpl`) parks results whose order cannot yet be looked up. It keeps them for five minutes under the key `orderId:STATUS`, and a periodic sweep retries them.

This project models those two state machines as classes over map fields. It also models:

- the **inventory rule evaluator** (`InventoryServiceImpl.checkOrder`), as a loop proved against a recursive specification;
- the **category parser** (`Category.from` / `getValue`);
- the **order mapper** (`OrderMapper.toEvent` / `toResponse`), as pure functions.

Files:

| file | models |
|---|---|
| `common_model.dfy` | shared value types; categories and their case-insensitive parse |
| `order_mapper.dfy` | request/event/response conversions |
| `inventory.dfy` | the per-item rule table and `checkOrder` |
| `order_cache.dfy` | the resilient order store |
| `notifications.dfy` | the pending-notification queue |

Modelling choices, all stated as parameters so that every path is visible:

- **Remote calls.** Every remote `get` or `set` takes its outcome as a boolean argument (`readOk`, `setOk`, `backfillOk`). A sweep takes one outcome per key, as a function `setOk: string -> bool`.
- **Lookups.** A lookup of an order by the notification service is a `Lookup` value: `Found(order)`, `Absent` or `Threw`. A sweep takes one per waiting key.
- **Time.** The current instant `now` and the current day `today` are arguments. Instants are integers in milliseconds and days are integers counted from 1970-01-01.
- **Case-insensitive matching.** `equalsIgnoreCase` against the lower-case ASCII category values is modelled character by character. ASCII letters fold to lower case. The four non-ASCII characters that compare equal to an ASCII letter under Java's rule fold to that letter: U+0130, U+0131, U+017F and U+212A.
- **Results.** A published inventory result is the method's result. An announcement is an `Approved` or `Rejected` value appended to the field `sent`.

Each state-changing method is specified by a whole-state function of the old state. These are `Save`, `Get`, `SetStatus` and `Flush` in the order store, and `Handle` and `SweptPending` with `Dispatches` in the queue. The lemmas about those functions state what the source promises.

Two behaviours of the code are easy to misread, and the model has them exactly as written:

- **Expiry is strict.** An entry expires only when `now` is after `expiresAt`. At the expiry instant itself it is still live.
- **`setOrderStatus` with no record.** When neither the remote store nor a live local entry has the order, the code fails on an `assert` or a null dereference before writing anything; it reports no "record not found" error. The model returns `updated == false` and leaves every map and the remote store unchanged.

To verify the project, run from this directory:

```
dafny verify --resource-limit 2000000 *.dfy
```

Each proof is kept well inside that resource limit. Adding `--warn-contradictory-assumptions` reports no warning.

## Model

| member | source | states |
|---|---|---|
| CommonModel.GetValue | common-model/src/main/java/com/assignment/commonmodel/model/Category.java:8-17 | the wire value of each constant; its contract is stated by `ValuesAreLowerAndDistinct` and `FromGetValue` |
| CommonModel.FirstMatch | common-model/src/main/java/com/assignment/commonmodel/model/Category.java:22-25 | the linear search returns UNKNOWN or a listed category whose value matches, and a match whenever some listed category matches |
| CommonModel.From | common-model/src/main/java/com/assignment/commonmodel/model/Category.java:20-26 | null gives UNKNOWN; a non-UNKNOWN result matches the input; when any category matches, the result does |
| CommonModel.FirstMatchOverValues | common-model/src/main/java/com/assignment/commonmodel/model/Category.java:22-24 | searching all the values finds a match whenever some category matches |
| CommonModel.CategoryIndex | common-model/src/main/java/com/assignment/commonmodel/model/Category.java:8-12 | every category sits in the declaration-order value list |
| CommonModel.ValuesAreLowerAndDistinct | common-model/src/main/java/com/assignment/commonmodel/model/Category.java:8-12 | the four values are lower-case ASCII, pairwise distinct, and no string matches two of them |
| CommonModel.FromGetValue | common-model/src/main/java/com/assignment/commonmodel/model/Category.java:16-24 | round trip: parsing a category's value gives that category, UNKNOWN included |
| CommonModel.FromUnmatched | common-model/src/main/java/com/assignment/commonmodel/model/Category.java:22-25 | the parse is total: a string matching no value gives UNKNOWN |
| CommonModel.FromOther | common-model/src/main/java/com/assignment/commonmodel/model/Category.java:22-25 | "other" parses to UNKNOWN |
| CommonModel.FirstMatchIgnoresCase | common-model/src/main/java/com/assignment/commonmodel/model/Category.java:23 | the search gives the same answer for two strings that compare equal ignoring case |
| CommonModel.FromIgnoresCase | common-model/src/main/java/com/assignment/commonmodel/model/Category.java:20-26 | strings that compare equal ignoring case parse to the same category |
| CommonModel.UpperAscii | common-model/src/main/java/com/assignment/commonmodel/model/Category.java:23 | ASCII upper-casing keeps the length and changes only lower-case ASCII letters |
| CommonModel.FromUpperAscii | common-model/src/main/java/com/assignment/commonmodel/model/Category.java:23 | the upper-cased spelling of a string parses like the string |
| OrderMapper.ToResponse | order-service/src/main/java/com/assignment/orderservice/mappers/OrderMapper.java:12-20 | the response carries the event's id, customer, items and status, and the given message |
| OrderMapper.ToEvent | order-service/src/main/java/com/assignment/orderservice/mappers/OrderMapper.java:22-29 | the new event has the given id, the request's customer and items, and status PENDING |
| OrderMapper.EventOfToResponse | order-service/src/main/java/com/assignment/orderservice/mappers/OrderMapper.java:12-20 | a response loses nothing of its event: the event is rebuilt from it exactly |
| OrderMapper.ResponseToNewOrder | order-service/src/main/java/com/assignment/orderservice/mappers/OrderMapper.java:12-29 | the response to a new order reports the new id, the request's customer and items, and PENDING |
| Inventory.BuildRejectedItem | inventory-service/src/main/java/com/assignment/inventoryservice/services/implementations/InventoryServiceImpl.java:92-94 | the issue names the given product and reason |
| Inventory.IsExpired | inventory-service/src/main/java/com/assignment/inventoryservice/services/implementations/InventoryServiceImpl.java:95-98 | whether a product is expired on a day; its contract is stated by `IsExpiredIff` |
| Inventory.HasSufficientQuantity | inventory-service/src/main/java/com/assignment/inventoryservice/services/implementations/InventoryServiceImpl.java:99-101 | whether the stock covers the requested quantity (available at least requested); its contract is stated by `ItemIssueRules` |
| Inventory.ItemIssue | inventory-service/src/main/java/com/assignment/inventoryservice/services/implementations/InventoryServiceImpl.java:38-78 | the issue one item of the loop raises, if any; its contract is stated by `ItemIssueRules` |
| Inventory.CheckOrder | inventory-service/src/main/java/com/assignment/inventoryservice/services/implementations/InventoryServiceImpl.java:26-90 | an empty item list is refused with an error and nothing is published; otherwise the one published result carries the order id and the issues of the items in item order, and is APPROVED exactly when there are none and REJECTED exactly when there are some |
| Inventory.IssuesAppend | inventory-service/src/main/java/com/assignment/inventoryservice/services/implementations/InventoryServiceImpl.java:36-79 | the issues of two item lists are those of the first followed by those of the second |
| Inventory.IssuesBounded | inventory-service/src/main/java/com/assignment/inventoryservice/services/implementations/InventoryServiceImpl.java:36-79 | there are never more issues than items |
| Inventory.IssueSources | inventory-service/src/main/java/com/assignment/inventoryservice/services/implementations/InventoryServiceImpl.java:36-79 | each issue is the one issue of its own item, and the items that raised them are strictly increasing, so item order is kept |
| Inventory.IssueSourcesCons | inventory-service/src/main/java/com/assignment/inventoryservice/services/implementations/InventoryServiceImpl.java:36-79 | the sources of a list's issues are those of its tail, one item further on, after index 0 when the first item raises an issue; they stay strictly increasing |
| Inventory.IssueSourcesMatch | inventory-service/src/main/java/com/assignment/inventoryservice/services/implementations/InventoryServiceImpl.java:36-79 | with those sources, issue j of the list is the issue of item `source[j]` |
| Inventory.IssuesComplete | inventory-service/src/main/java/com/assignment/inventoryservice/services/implementations/InventoryServiceImpl.java:36-79 | no issue is lost: the issue of every item that raises one is in the published list |
| Inventory.IssuesEmptyIff | inventory-service/src/main/java/com/assignment/inventoryservice/services/implementations/InventoryServiceImpl.java:36-82 | the issue list is empty exactly when no item raises an issue |
| Inventory.ItemIssueRules | inventory-service/src/main/java/com/assignment/inventoryservice/services/implementations/InventoryServiceImpl.java:40-78 | the rule table in priority order: unknown product first; then an UNKNOWN item category; then, by the catalog's category, STANDARD short of stock, PERISHABLE expired before short of stock, DIGITAL and UNKNOWN never an issue |
| Inventory.IsExpiredIff | inventory-service/src/main/java/com/assignment/inventoryservice/services/implementations/InventoryServiceImpl.java:95-98 | expired exactly when an expiration day is set and today is on or after it; no day means never expired |
| Inventory.DemoCatalogOutcomes | inventory-service/src/test/java/com/assignment/inventoryservice/InventoryServiceTest.java:57-189 | on the demonstration catalog: an expired perishable, a short standard item, an UNKNOWN category, an unknown product and a short undated perishable each give their one issue; standard plus a zero-stock digital item gives none |
| OrderCache.BuildKey | order-service/src/main/java/com/assignment/orderservice/services/implementation/OrderCacheServiceImpl.java:59-61 | the key is the order prefix followed by exactly the order id |
| OrderCache.BuildKeyInjective | order-service/src/main/java/com/assignment/orderservice/services/implementation/OrderCacheServiceImpl.java:59-61 | two orders share a key exactly when their ids are equal |
| OrderCache.Expired | order-service/src/main/java/com/assignment/orderservice/services/implementation/OrderCacheServiceImpl.java:38-40 | an entry is expired strictly after its expiry instant; its contract is stated by `GetMissPurges`, `GetLiveEntry` and `FlushPerKey` |
| OrderCache.RemoteGet | order-service/src/main/java/com/assignment/orderservice/services/implementation/OrderCacheServiceImpl.java:96-103 | a failed read gives no order; a successful read gives the stored order exactly when the key is present |
| OrderCache.OrderCacheService.constructor | order-service/src/main/java/com/assignment/orderservice/services/implementation/OrderCacheServiceImpl.java:26-30 | both maps start empty, in front of the given remote store, with the given ttl |
| OrderCache.OrderCacheService.Default | order-service/src/main/java/com/assignment/orderservice/services/implementation/OrderCacheServiceImpl.java:29-30 | both maps start empty, in front of the given remote store, with the ttl the field is initialised with, 30 minutes |
| OrderCache.OrderCacheService.TryWriteRedis | order-service/src/main/java/com/assignment/orderservice/services/implementation/OrderCacheServiceImpl.java:83-94 | reports the outcome of the remote write; a failed write leaves the remote store as it was |
| OrderCache.OrderCacheService.SaveOrder | order-service/src/main/java/com/assignment/orderservice/services/implementation/OrderCacheServiceImpl.java:43-58 | returns the order's key whatever the outcome, keeps the invariant, and leaves the state `Save` describes |
| OrderCache.OrderCacheService.SetOrderStatus | order-service/src/main/java/com/assignment/orderservice/services/implementation/OrderCacheServiceImpl.java:62-76 | keeps the invariant and leaves the state `SetStatus` describes; the in-place status change of a cached record is seen by both maps before the save |
| OrderCache.OrderCacheService.FlushPendingToRedis | order-service/src/main/java/com/assignment/orderservice/services/implementation/OrderCacheServiceImpl.java:105-122 | keeps the invariant, leaves the state `Flush` describes, and makes a remote write for exactly the live pending keys |
| OrderCache.OrderCacheService.FlushKey | order-service/src/main/java/com/assignment/orderservice/services/implementation/OrderCacheServiceImpl.java:110-121 | one turn of the sweep: an expired entry leaves both maps without a write; a live one is written and leaves the pending map when the write succeeds |
| OrderCache.OrderCacheService.GetOrder | order-service/src/main/java/com/assignment/orderservice/services/implementation/OrderCacheServiceImpl.java:124-142 | keeps the invariant and returns the order and leaves the state `Get` describes |
| OrderCache.SweptNothing | order-service/src/main/java/com/assignment/orderservice/services/implementation/OrderCacheServiceImpl.java:110-121 | a sweep that has visited no key has changed nothing |
| OrderCache.SweptAll | order-service/src/main/java/com/assignment/orderservice/services/implementation/OrderCacheServiceImpl.java:106-122 | a sweep that has visited every pending key has reached the state `Flush` describes |
| OrderCache.SweptStep | order-service/src/main/java/com/assignment/orderservice/services/implementation/OrderCacheServiceImpl.java:110-121 | visiting one more key, in any order, changes only that key, as one sweep turn does |
| OrderCache.SweptStepExpired | order-service/src/main/java/com/assignment/orderservice/services/implementation/OrderCacheServiceImpl.java:111-116 | visiting an expired pending key drops it from both maps and writes nothing |
| OrderCache.SweptStepReplayed | order-service/src/main/java/com/assignment/orderservice/services/implementation/OrderCacheServiceImpl.java:117-120 | visiting a live pending key whose write succeeds writes its value and drops only its pending copy |
| OrderCache.ReplayedOneMore | order-service/src/main/java/com/assignment/orderservice/services/implementation/OrderCacheServiceImpl.java:117 | replaying one more key adds exactly its buffered value to what the sweep writes |
| OrderCache.FlushStart | order-service/src/main/java/com/assignment/orderservice/services/implementation/OrderCacheServiceImpl.java:110 | before the first turn the sweep has written, dropped and attempted nothing |
| OrderCache.FlushStep | order-service/src/main/java/com/assignment/orderservice/services/implementation/OrderCacheServiceImpl.java:110-121 | one more turn, for any key still unvisited, keeps the sweep's bookkeeping true |
| OrderCache.FlushDone | order-service/src/main/java/com/assignment/orderservice/services/implementation/OrderCacheServiceImpl.java:106-122 | once every pending key is visited, the state and the attempted writes are those of a whole sweep |
| OrderCache.SavePreservesInv | order-service/src/main/java/com/assignment/orderservice/services/implementation/OrderCacheServiceImpl.java:48-55 | a save keeps every pending entry present, and identical, in the local cache |
| OrderCache.GetPreservesInv | order-service/src/main/java/com/assignment/orderservice/services/implementation/OrderCacheServiceImpl.java:131-141 | a read keeps the invariant: it removes a key from both maps together, or from the pending map only |
| OrderCache.SetStatusPreservesInv | order-service/src/main/java/com/assignment/orderservice/services/implementation/OrderCacheServiceImpl.java:63-76 | a status update keeps the invariant, the in-place change included |
| OrderCache.FlushPreservesInv | order-service/src/main/java/com/assignment/orderservice/services/implementation/OrderCacheServiceImpl.java:110-121 | a sweep keeps the invariant: expired keys leave both maps, replayed keys only the pending one |
| OrderCache.SaveOutcome | order-service/src/main/java/com/assignment/orderservice/services/implementation/OrderCacheServiceImpl.java:44-57 | a successful save writes the remote store and drops only the pending copy, leaving the local cache alone; a failed one puts the same new entry, expiring after the ttl, in both maps; no other key changes |
| OrderCache.GetRemoteHit | order-service/src/main/java/com/assignment/orderservice/services/implementation/OrderCacheServiceImpl.java:127-129 | a remote hit is returned as it is and nothing changes |
| OrderCache.GetMissPurges | order-service/src/main/java/com/assignment/orderservice/services/implementation/OrderCacheServiceImpl.java:131-136 | with a remote miss or failure and no live local entry, the key leaves both maps and nothing is returned |
| OrderCache.GetLiveEntry | order-service/src/main/java/com/assignment/orderservice/services/implementation/OrderCacheServiceImpl.java:131-141 | a live local entry is returned whatever the back-fill does; a successful back-fill writes it remotely and drops only the pending copy |
| OrderCache.ReadAfterFailedWrite | order-service/src/test/java/com/assignment/orderservice/OrderCacheServiceTest.java:92-114 | after a save with the remote store down, a read with the remote store still down returns the saved order until the entry expires |
| OrderCache.ReadAfterWrite | order-service/src/main/java/com/assignment/orderservice/services/implementation/OrderCacheServiceImpl.java:44-57 | after a successful save, a successful read returns the saved order |
| OrderCache.FlushEmpty | order-service/src/main/java/com/assignment/orderservice/services/implementation/OrderCacheServiceImpl.java:106-108 | a sweep over an empty pending map makes no remote call and changes nothing |
| OrderCache.FlushPerKey | order-service/src/main/java/com/assignment/orderservice/services/implementation/OrderCacheServiceImpl.java:106-121 | per key: an expired entry leaves both maps without a write; a live entry is written and leaves the pending map exactly when the write succeeds, staying unchanged otherwise; keys not pending are untouched |
| OrderCache.ResolveAgreesWithGet | order-service/src/main/java/com/assignment/orderservice/services/implementation/OrderCacheServiceImpl.java:63-72 | the record a status update reads is the one a read would return, though it purges and writes back nothing |
| OrderCache.SetStatusSavesRecord | order-service/src/main/java/com/assignment/orderservice/services/implementation/OrderCacheServiceImpl.java:63-76 | when a record resolves, the update saves that record with only its status replaced, with the outcomes of a save; a record taken from the local cache keeps its old expiry in the cache after a successful write; no other key of either map or the remote store changes |
| OrderCache.SetStatusNoRecord | order-service/src/main/java/com/assignment/orderservice/services/implementation/OrderCacheServiceImpl.java:67-73 | when no record resolves, the update fails and no map and no remote key changes |
| OrderCache.RecoveryScenario | order-service/src/main/java/com/assignment/orderservice/services/implementation/OrderCacheServiceImpl.java:44-142 | save while the remote store is down, read from the local cache, then a sweep replays the order once it is back, and the remote store answers later reads |
| OrderCache.ExpiryScenario | order-service/src/main/java/com/assignment/orderservice/services/implementation/OrderCacheServiceImpl.java:110-136 | a buffered entry past its expiry is dropped by the next sweep, and a read then finds nothing when the remote store never had the order |
| Notifications.ThrowingLookupIsAbsent | notification-service/src/main/java/com/assignment/notificationservice/services/implementations/NotificationServiceImpl.java:86-94 | a lookup that throws gives no order and is handled exactly like an absent order |
| Notifications.Expired | notification-service/src/main/java/com/assignment/notificationservice/services/implementations/NotificationServiceImpl.java:32-34 | a waiting result is expired strictly after its expiry instant; its contract is stated by `SweepPerKey` |
| Notifications.GetOrder | notification-service/src/main/java/com/assignment/notificationservice/services/implementations/NotificationServiceImpl.java:86-94 | a lookup gives the order when found, and no order when absent or when it throws; its contract is stated by `ThrowingLookupIsAbsent` |
| Notifications.SendNotification | notification-service/src/main/java/com/assignment/notificationservice/services/implementations/NotificationServiceImpl.java:79-85 | the announcement for an order and its result; its contract is stated by `NotificationKind` |
| Notifications.BuildKey | notification-service/src/main/java/com/assignment/notificationservice/services/implementations/NotificationServiceImpl.java:52-54 | the queue key `orderId:STATUS`; its contract is stated by `KeyStatusOfBuildKey` and `BuildKeyInjective` |
| Notifications.NotificationKind | notification-service/src/main/java/com/assignment/notificationservice/services/implementations/NotificationServiceImpl.java:79-85 | the announcement is Approved with the order's items exactly when the result is APPROVED, and Rejected with the result's issues otherwise, for the order's id and customer |
| Notifications.KeyStatusOfBuildKey | notification-service/src/main/java/com/assignment/notificationservice/services/implementations/NotificationServiceImpl.java:52-54 | a queue key gives back its status, and its order id as the part before it |
| Notifications.BuildKeyInjective | notification-service/src/main/java/com/assignment/notificationservice/services/implementations/NotificationServiceImpl.java:52-54 | two (order, status) pairs share a key exactly when they are equal, whatever the order ids contain |
| Notifications.NotificationService.constructor | notification-service/src/main/java/com/assignment/notificationservice/services/implementations/NotificationServiceImpl.java:22-23 | the queue starts empty and nothing has been announced |
| Notifications.NotificationService.HandleInventoryResult | notification-service/src/main/java/com/assignment/notificationservice/services/implementations/NotificationServiceImpl.java:37-50 | leaves the queue and announcements `Handle` describes |
| Notifications.NotificationService.ProcessPending | notification-service/src/main/java/com/assignment/notificationservice/services/implementations/NotificationServiceImpl.java:56-77 | looks up exactly the live keys, and none for an empty queue; leaves only the live unresolved entries; announces each resolved entry exactly once, in visiting order |
| Notifications.NotificationService.ProcessKey | notification-service/src/main/java/com/assignment/notificationservice/services/implementations/NotificationServiceImpl.java:61-76 | one turn of the sweep: an expired entry is dropped unannounced without a lookup; a live entry is looked up, and is announced and dropped when its order is found; any other stays; it reports whether the lookup was made |
| Notifications.SweepStart | notification-service/src/main/java/com/assignment/notificationservice/services/implementations/NotificationServiceImpl.java:61 | before the first turn the sweep has looked up, announced and dropped nothing |
| Notifications.SweepStep | notification-service/src/main/java/com/assignment/notificationservice/services/implementations/NotificationServiceImpl.java:61-76 | one more turn, for any key still unvisited, keeps the sweep's bookkeeping true |
| Notifications.SweepDone | notification-service/src/main/java/com/assignment/notificationservice/services/implementations/NotificationServiceImpl.java:56-77 | once every key is visited, the lookups, the remaining queue and the announced keys are exactly those of a whole sweep |
| Notifications.SweptPendingStep | notification-service/src/main/java/com/assignment/notificationservice/services/implementations/NotificationServiceImpl.java:64-75 | visiting one more key drops it exactly when it is expired or its order is found, and changes nothing else |
| Notifications.DispatchesSnoc | notification-service/src/main/java/com/assignment/notificationservice/services/implementations/NotificationServiceImpl.java:70-75 | announcing one more resolved entry appends exactly its announcement |
| Notifications.HandleResolved | notification-service/src/main/java/com/assignment/notificationservice/services/implementations/NotificationServiceImpl.java:41-45 | a result whose order is found is announced exactly once and the queue is unchanged |
| Notifications.HandleQueued | notification-service/src/main/java/com/assignment/notificationservice/services/implementations/NotificationServiceImpl.java:47-48 | a result whose order is not found waits under `orderId:STATUS` for five minutes, overwriting only that key; entries for the order's other statuses are untouched; nothing is announced |
| Notifications.SweepEmpty | notification-service/src/main/java/com/assignment/notificationservice/services/implementations/NotificationServiceImpl.java:58-59 | a sweep over an empty queue looks nothing up and announces nothing |
| Notifications.SweepPerKey | notification-service/src/main/java/com/assignment/notificationservice/services/implementations/NotificationServiceImpl.java:64-75 | per key: an expired entry is dropped with no lookup and no announcement; a live entry whose order is found is announced and dropped; a live entry whose order is not found stays unchanged |
| Notifications.DispatchesAt | notification-service/src/main/java/com/assignment/notificationservice/services/implementations/NotificationServiceImpl.java:70-75 | the announcements of a sweep are one per announced key, the i-th being the one for the i-th key |

## Left out

- **Order key prefix.** The shared constants class (`Constants.ORDER_PREFIX`, used at OrderCacheServiceImpl.java:60) is not part of this model. The model assumes its value is `"order:"`. No proved property depends on the value, only on the key being the prefix followed by the order id.
- **Concurrency.** Concurrent map access, scheduled timing and the interleaving of a sweep with callers are not modelled. Every operation is atomic. A sweep visits its keys in an arbitrary order, and each key's outcome depends only on its own entry and its own outcome argument.
- **Clock.** `Instant.now()` and `LocalDate.now()` are the arguments `now` and `today`. Sub-millisecond precision is not kept.
- **Configured ttl.** The order store's ttl is a constructor argument; the `Default` constructor uses `DEFAULT_TTL`, the 30 minutes written in the field. Reading it from configuration is not modelled.
- **Redis, Kafka and HTTP.** The template, its serializers, publishers, consumers, topic configuration, the controller, the exception handler and bean validation are plumbing. A remote call is a map plus an outcome argument, and publishing is a result value.
- **Notification lookups.** `NotificationCacheServiceImpl` is a single remote read. It is the `Lookup` argument, and an order stored as null counts as `Absent`.
- **`OrderServiceImpl`.** Id generation and orchestration are glue: orders are built by `ToEvent` and saved by `SaveOrder`.
- **`getStatus`.** It is a stub that always returns null.
- **Logging.** Log output is not modelled, except that the choice `sendNotification` logs is the `Approved`/`Rejected` value.
- **Null-catalog branch.** The branch of `checkOrder` taken on a null catalog value (InventoryServiceImpl.java:51-56) cannot occur, because the catalog maps to details, never to null.
- **Null fields.** Null item lists, ids and names are not modelled. A null expiration date is `None`, and a null category string is `None`.
- **Caller aliasing.** The order store keeps the caller's event object, so a caller that later mutates it would change the cached copy. The model stores values. The one aliasing the service itself relies on, the in-place status change in `setOrderStatus`, is modelled.
- **Unicode folding.** `FoldCase` is exact only when one side is lower-case ASCII, which every category value is. It is not a general model of `equalsIgnoreCase`.
- **The returned null.** `checkOrder` always returns null, and the model does not return it. `CheckOrder`'s result stands for the one result event published.
