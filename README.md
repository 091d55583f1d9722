# Order placement with a catalog fallback

A model of the order service of a two-service shop. Placing an order looks the
product up in the remote catalog and applies three gates in a fixed order:

1. the lookup gave nothing;
2. the snapshot carries the reserved name "Product Unavailable";
3. the price is missing or not positive.

If all three pass, the service prices the order as price × quantity, writes the
total onto the order and saves it once. A thrown catalog call is absorbed into
"no product". The fallback responder registered for the catalog client answers
every id with a sentinel snapshot: that id, the reserved name, price 0.0.

Modules, one per source file. `Wrappers` is a helper with no source counterpart. `Orders` stands for the order entity and the order store, whose own files are not part of this model:

- `Wrappers`: `Option` (a nullable reference) and `Result` (a return value or a thrown exception).
- `Dto`: `ProductResponse`, the catalog snapshot.
- `Fallback`: the sentinel name, `IsSentinel`, and the fallback `GetProductById`.
- `Client`: the client interface. `Outcome` is `Returned(snapshot or null)` or `Threw`. `ProductClient` has two implementations, `Remote(answer)` and `FallbackClient`.
- `Orders`: the mutable `Order` entity, the persisted `OrderRecord`, and `OrderRepository`, a class holding the saved rows and the next id.
- `Service`: `PlaceError`, the exception-absorbing `FetchProduct`, the pure gate function `Decide`, and the `OrderService` class. Its `PlaceOrder` method mutates the order and the repository.

## Model

| member | source | states |
|---|---|---|
| `Fallback.GetProductById` | orders/orders/src/main/java/com/ecommerce/orders/client/ProductClientFallback.java:11-21 | the fallback always returns a snapshot, for every id; its id is the requested id, its name is the sentinel, its price is present and 0.0 |
| `Client.FallbackClientAlwaysAnswers` | orders/orders/src/main/java/com/ecommerce/orders/client/ProductClient.java:9-14 | the client registered as fallback never throws and never answers null, and its answer is a sentinel snapshot |
| `Client.Call` | orders/orders/src/main/java/com/ecommerce/orders/client/ProductClient.java:13-14 | dispatch of `getProductById`: a remote client gives the catalog's outcome for the id; the fallback client returns the fallback snapshot |
| `Service.FetchProduct` | orders/orders/src/main/java/com/ecommerce/orders/service/OrderService.java:44-51 | a thrown client call becomes "no product"; a returned value, null or not, is passed through unchanged; nothing is propagated |
| `Service.Decide` | orders/orders/src/main/java/com/ecommerce/orders/service/OrderService.java:25-37 | an iff for each outcome. LookupFailed exactly when there is no snapshot. CatalogUnavailable exactly when the name is the sentinel. InvalidPrice exactly when the name is not the sentinel and the price is missing or <= 0. Success exactly when all three gates pass, with total = price * quantity |
| `Service.Place` | orders/orders/src/main/java/com/ecommerce/orders/service/OrderService.java:23-37 | the placement decision, from the client's raw outcome: LookupFailed exactly when the call threw or answered null; success exactly when it returned a non-sentinel snapshot with a positive price, with total = price * quantity |
| `Service.SentinelBeatsPrice` | orders/orders/src/main/java/com/ecommerce/orders/service/OrderService.java:29-35 | a sentinel snapshot is refused as CatalogUnavailable whatever its price, never as InvalidPrice |
| `Service.QuantityUnchecked` | orders/orders/src/main/java/com/ecommerce/orders/service/OrderService.java:37 | quantity is not checked: a validly priced product is accepted for any quantity; a zero quantity gives total 0 and a negative one a negative total |
| `Service.ThrownCallFailsLookup` | orders/orders/src/main/java/com/ecommerce/orders/service/OrderService.java:23-27 | a client call that throws always ends in LookupFailed |
| `Service.FallbackNeverPlaces` | orders/orders/src/main/java/com/ecommerce/orders/service/OrderService.java:29-31 | with the fallback client, every product id and quantity ends in CatalogUnavailable, with the message "Product Service is currently unavailable. Try again later." |
| `Service.MessagesDistinct` | orders/orders/src/main/java/com/ecommerce/orders/service/OrderService.java:26-34 | the three failure messages differ, so each error is told apart by its message |
| `Service.OrderService.constructor` | orders/orders/src/main/java/com/ecommerce/orders/service/OrderService.java:16-20 | the service holds exactly the repository and client it is given |
| `Service.OrderService.PlaceOrder` | orders/orders/src/main/java/com/ecommerce/orders/service/OrderService.java:22-42 | fails exactly when `Place` fails, with the same error, and then leaves the order and the repository unchanged. Otherwise it sets totalPrice to price * quantity and keeps productId and quantity. It saves once: exactly one new row, under a fresh id, and the store's next id advances by one. It returns the saved order, which `GetOrderById` then finds |
| `Service.OrderService.GetAllOrders` | orders/orders/src/main/java/com/ecommerce/orders/service/OrderService.java:53-55 | a read-only pass-through: returns the stored rows in save order, each found again by its id |
| `Service.OrderService.GetOrderById` | orders/orders/src/main/java/com/ecommerce/orders/service/OrderService.java:57-59 | a read-only pass-through to the store; an unknown id gives `None`, not a failure |
| `Orders.OrderRepository.Save` | orders/orders/src/main/java/com/ecommerce/orders/service/OrderService.java:40 | appends one row with a fresh id and writes that id onto the order. It leaves the order's other fields as they were and returns the same order. The new id finds the new row; every other id finds what it found before |
| `Orders.OrderRepository.FindById` | orders/orders/src/main/java/com/ecommerce/orders/service/OrderService.java:58 | a found row is stored and has the requested id; `None` exactly when no stored row has that id |
| `Orders.OrderRepository.FindAll` | orders/orders/src/main/java/com/ecommerce/orders/service/OrderService.java:54 | returns every stored row in save order, and `FindById` finds each of them by its own id |
| `Orders.Lookup` | orders/orders/src/main/java/com/ecommerce/orders/service/OrderService.java:58 | a found row is in the table, has the requested id and no earlier row has that id; `None` exactly when no row has it |
| `Orders.LookupAppendNew` | orders/orders/src/main/java/com/ecommerce/orders/service/OrderService.java:40 | after a row with a new id is appended, looking up that id finds the new row |
| `Orders.LookupAppendOther` | orders/orders/src/main/java/com/ecommerce/orders/service/OrderService.java:40 | appending a row does not change what is found for any other id |
| `Orders.ForallLookupFindsRow` | orders/orders/src/main/java/com/ecommerce/orders/service/OrderService.java:54 | in a table with strictly increasing ids, every row is what its own id finds |

## Left out

- Floating point: price and total are `real`, so `total == price * quantity` holds exactly. The source multiplies Java `double`s, which rounds. For the same reason a NaN price, which passes the source's `<= 0.0` test, is not modelled.
- Integer widths: product ids, order ids and quantities are unbounded `int`. The ids are `Long` in the source; the declared type of the quantity is not shown, because the order entity's file is not part of this model. The only arithmetic on any of them is the price-times-quantity product, which is real-valued here.
- Null values: a null product id, which the client would reject, is not modelled; nor is a null quantity, which would throw on unboxing if the quantity is a boxed type. Neither is a null `orderId` passed to `getOrderById`, for which a standard repository's `findById` throws rather than returning an empty result. The snapshot's name and price may be absent. Its id may not, because the workflow never reads it.
- The order store's code is not shown. `OrderRepository` is a minimal in-memory table: ids come from a counter starting at 1, and every save creates a new row. Updating an existing row through `save` is not modelled. The model assumes callers of `placeOrder` pass new orders: an order that already carries an id is given a fresh one by `Save`, where a real store might update the existing row instead.
- Save, PlaceOrder: the store is modelled as never failing. In the source the total is written onto the order before `save` is called, so a failing `save` would propagate its exception and leave the order with its total set; that path is not modelled, and PlaceOrder's promise that a failed placement changes nothing covers only the three gate failures.
- FindAll, GetAllOrders: returning the rows in save order is a choice of this model; the real store's `findAll` promises no particular order.
- `Order` is not shown either. Its fields are inferred from how the service uses them: id, product id, quantity, total price.
- The remote catalog is the parameter `Remote(answer)`. It gives one fixed outcome per id for the life of a service value, so answers that change from call to call are not modelled.
- Which implementation backs the client is a parameter of the service. The circuit breaker that switches between them is not modelled.
- The `Threw` outcome keeps the exception message, but it is only logged. All logging to standard error is left out.
- HTTP routing, service discovery, dependency injection and the two application bootstrap classes carry no logic and are not modelled.
