# SellGator order-entry services in Dafny

SellGator is a single-user, in-memory order-entry tool. Its core is a small
service layer with three stores:

- the **inventory**: products keyed by id, with a stock count;
- the **customer register**: customers keyed by id;
- the **sales service**: it holds read-only references to the other two
  stores, checks each new order against them, and keeps the accepted orders
  in an append-only list.

This project models that layer and proves what it promises:

- ids are handed out one after another, starting at 1;
- a lookup after an insert finds exactly what was inserted, and nothing else changes;
- a stock adjustment never drives stock below zero, and when it fails it changes nothing;
- listings are complete, strictly ascending by id, and do not change the store;
- order creation is all-or-nothing.

Files and modules:

- `models.dfy` (`Models`): the records `Product`, `Customer`, `OrderLine`
  and `SalesOrder`, plus the order total as a sum over reals.
- `listing.dfy` (`Listing`): the shared listing step. It copies each stored
  record out of the map in an unspecified order, then sorts by id. It also
  proves that a listing is unique and holds one item per stored record.
- `services.dfy` (`Services`): the classes `InventoryService`,
  `CustomerService` and `SalesService`. Their fields are the id counters,
  the two maps and the order list. The invariant `Valid()` says every record
  is stored under its own id, every id is below the store's counter, and
  stored orders have strictly increasing ids.
- `console.dfy` (`Console`): the console's order handler, without any I/O.
  The typed entries become a sequence of requests. The handler takes each
  accepted line's quantity out of stock right away. When the order ends it
  calls `CreateOrder`, which checks the already-reduced stock again.
- `scenarios.dfy` (`Scenarios`): client methods that use only the contracts.
  They cover a run of product creations, the gap in order ids, the widget
  walk-through, and the same widget order placed through the console.

Two behaviours of the code are stated as they are, not smoothed over:

- **Order ids can skip.** `create_order` draws the order id as soon as the
  customer is found, before it checks any line. An order rejected for a bad
  line therefore still uses up an id. An order rejected for an unknown
  customer does not. One might expect the id to be drawn only after every
  line passes; the code draws it first, and the model follows the code
  (`SalesService.CreateOrder`, `Scenarios.OrderIdGap`).
- **The console checks stock twice.** The order handler takes each line's
  quantity out of stock before it calls `create_order`, and `create_order`
  then checks the line against the reduced stock. An order placed this way
  is accepted only when every product had at least twice the quantity in
  stock (more when several lines name it). The stock taken stays taken when
  the order is rejected (`Console.AcceptedNeedsTwiceTheStock`,
  `Scenarios.ConsoleWidgetOrder`).
- **Creation does not check stock.** `create_product` stores whatever
  initial stock it is given. "No stock below zero" is therefore kept by
  `AdjustStock` but not set up by `CreateProduct`. `CreateProduct` states
  exactly when the property survives an insert.

`unit_price` is a `real`. The services only store it and compare it with 0.

## Model

| member | source | states |
|---|---|---|
| `Services.InventoryService.constructor` | SellGator_v0.1/cpp/include/erp/services.hpp:23-24 | a new inventory is empty and its product counter starts at 1 |
| `Services.InventoryService.CreateProduct` | SellGator_v0.1/cpp/src/services.cpp:8-13 | the product gets the current counter value as its id, which was unused; the counter goes up by 1; the product is stored with exactly the given name, sku, price and stock; every other id finds what it found before; "no stock below zero" holds afterwards exactly when it held before and the initial stock is not negative |
| `Services.InventoryService.FindProduct` | SellGator_v0.1/cpp/src/services.cpp:15-20 | finds a product exactly when the id is a key, returns the stored record, and under the invariant that record carries the requested id |
| `Services.InventoryService.ListProducts` | SellGator_v0.1/cpp/src/services.cpp:22-32 | every stored product appears exactly once (one row per key), rows are strictly ascending by id, each row's available stock equals the product's stock on hand, and the store is not changed |
| `Services.InventoryService.AdjustStock` | SellGator_v0.1/cpp/src/services.cpp:34-45 | succeeds exactly when the product exists and stock plus delta is not negative; on success only that product's stock changes, to old stock plus delta; on failure nothing changes; "no stock below zero" is preserved |
| `Services.CustomerService.constructor` | SellGator_v0.1/cpp/include/erp/services.hpp:35-36 | a new register is empty and its customer counter starts at 1 |
| `Services.CustomerService.CreateCustomer` | SellGator_v0.1/cpp/src/services.cpp:47-53 | the customer gets the current, unused counter value as its id; the counter goes up by 1; the given fields are stored unchecked; every other id finds what it found before |
| `Services.CustomerService.FindCustomer` | SellGator_v0.1/cpp/src/services.cpp:55-60 | finds a customer exactly when the id is a key, returns the stored record, and under the invariant that record carries the requested id |
| `Services.CustomerService.ListCustomers` | SellGator_v0.1/cpp/src/services.cpp:62-72 | every stored customer appears exactly once, strictly ascending by id, as stored, and the register is not changed |
| `Services.SalesService.constructor` | SellGator_v0.1/cpp/include/erp/services.hpp:47-50 | the service keeps the two given stores, its order counter starts at 1, and it holds no orders |
| `Services.SalesService.CreateOrder` | SellGator_v0.1/cpp/src/services.cpp:77-100 | returns an order exactly when the customer exists and every line names a known product, has quantity > 0 and price >= 0, and is covered by current stock; an accepted order has the drawn id, the given customer and the given lines verbatim, and is appended last; a rejected order stores nothing; the counter goes up by 1 whenever the customer exists, even if a line is later rejected; no product and no customer changes |
| `Services.SalesService.ListOrders` | SellGator_v0.1/cpp/src/services.cpp:102 | returns the orders in creation order, and their ids are strictly increasing, at least 1 and below the counter |
| `Listing.SortedSnapshot` | SellGator_v0.1/cpp/src/services.cpp:22-32 | copying every record out of the map in any order and then sorting by id gives a result that is strictly ascending, holds only stored records under their own ids, and lists every stored id |
| `Listing.SortByKey` | SellGator_v0.1/cpp/src/services.cpp:28-30 | the sort's result is ordered by id and is a permutation of its input; when no two inputs share an id, the order is strict |
| `Listing.InsertSorted` | SellGator_v0.1/cpp/src/services.cpp:28-30 | inserting into an ordered sequence keeps it ordered and adds exactly the one element |
| `Listing.InsertSortedStrict` | SellGator_v0.1/cpp/src/services.cpp:28-30 | inserting an element whose id is not already present keeps a strictly ascending sequence strict |
| `Listing.StrictlySortedUnique` | SellGator_v0.1/cpp/src/services.cpp:28-30 | two strictly ascending sequences with the same elements are equal, so the map's iteration order cannot affect the listing |
| `Listing.ListingUnique` | SellGator_v0.1/cpp/src/services.cpp:62-72 | a store has exactly one listing, so repeated listings of an unchanged store are equal |
| `Listing.ListingSize` | SellGator_v0.1/cpp/src/services.cpp:24-27 | a listing has exactly one item per stored record |
| `Models.TotalAmount` | SellGator_v0.1/cpp/src/models.cpp:5-11 | the loop's accumulated total equals the sum of price times quantity over the lines |
| `Models.LinesTotalAppend` | SellGator_v0.1/cpp/src/models.cpp:5-11 | the total is additive: the total of two runs of lines is the sum of their totals |
| `Models.LinesTotalSwap` | SellGator_v0.1/cpp/src/models.cpp:5-11 | swapping two runs of lines does not change the total |
| `Models.LinesTotalMove` | SellGator_v0.1/cpp/src/models.cpp:5-11 | moving one line to the front does not change the total |
| `Models.LinesTotalRemove` | SellGator_v0.1/cpp/src/models.cpp:5-11 | taking one line out of a run of lines lowers the total by exactly that line's amount |
| `Models.LinesTotalPermutation` | SellGator_v0.1/cpp/src/models.cpp:5-11 | any two orderings of the same lines (equal as multisets) have the same total |
| `Console.CollectEffect` | SellGator_v0.1/cpp/src/app.cpp:145-168 | after the gathering loop, the same products are stored and each one's stock is lower by exactly the total quantity gathered for it, with nothing else changed; every gathered line names a known product, has a positive quantity and carries that product's catalogue price; stock that was not negative stays non-negative |
| `Console.TakenCoversLine` | SellGator_v0.1/cpp/src/app.cpp:165-166 | every gathered line's quantity counts towards the total taken of its product |
| `Console.CollectedOrderAccepted` | SellGator_v0.1/cpp/src/app.cpp:145-175 | `CreateOrder` accepts the gathered lines exactly when the customer is known and, for every line, the product's original stock minus everything the console took of it covers the line, and the price is not negative |
| `Console.AcceptedNeedsTwiceTheStock` | SellGator_v0.1/cpp/src/app.cpp:161-175 | an order placed through the console is accepted only if every line's product originally had at least twice the line's quantity in stock |
| `Console.DecrementThenRecheck` | SellGator_v0.1/cpp/src/app.cpp:161-175 | for a single line of quantity q against stock S, the console leaves S - q in stock. `CreateOrder` then accepts the one-line order exactly when S - q >= q and the copied catalogue price is not negative |
| `Console.GatherLines` | SellGator_v0.1/cpp/src/app.cpp:145-168 | the loop reads entries until product id 0 or the end of input, skips an unknown product, a non-positive quantity and a quantity the current stock does not cover, and takes every kept quantity out of stock; the lines it returns and the stock it leaves are exactly those of the gathering function; no product is created |
| `Console.HandleCreateOrder` | SellGator_v0.1/cpp/src/app.cpp:137-183 | an unknown customer changes nothing and places no order; otherwise the stock is reduced as gathered; with no gathered line no order is placed and no order id is used; with lines, `CreateOrder` draws the next id, and the order is accepted exactly when the lines pass against the reduced stock; an accepted order holds the customer and the gathered lines and is appended, a rejected one stores nothing |
| `Scenarios.CreateInOrder` | SellGator_v0.1/cpp/src/services.cpp:8-19 | creating products in a fresh inventory hands out ids 1, 2, 3, ... in call order; each id then finds exactly its fields, and no other id finds anything |
| `Scenarios.OrderIdGap` | SellGator_v0.1/cpp/src/services.cpp:78-94 | an unknown customer uses no order id, a bad line does, and an empty line list is accepted, so the first accepted order gets id 2 |
| `Scenarios.WidgetWalkThrough` | SellGator_v0.1/cpp/src/services.cpp:77-100 | an order for 3 of 5 widgets is accepted with total 30.0 and takes no stock; after the caller takes 3 out, 2 remain and an order for 10 is rejected |
| `Scenarios.ConsoleWidgetOrder` | SellGator_v0.1/cpp/src/app.cpp:137-183 | ordering 3 of 5 widgets through the console takes the 3 out first, so `CreateOrder` sees 2 and rejects the order, and 2 stay in stock |
| `Scenarios.TwoLineTotal` | SellGator_v0.1/cpp/src/models.cpp:5-11 | lines (10.0 x 2) and (5.5 x 3) total 36.5 |

## Left out

- Console menus, prompts, input parsing and table output (`app.cpp`, `app.hpp`) are I/O. Of the console, only the order handler is modelled (`Console`). Its typed entries become a sequence of product id and quantity pairs; the end of that sequence stands for an exhausted input, which `read_int` reads as 0. The quantity of an entry for an unknown product is never read by the code and is ignored by the model. The messages the handler prints, including the order total, are not modelled.
- `created_at` and the wall clock are not modelled; an order has no timestamp.
- Floating point: prices and totals are `real`. The double rounding of `total_amount` is not modelled. Neither is NaN: in the code a NaN price passes the `unit_price < 0.0` check.
- C++ `int` overflow is not modelled. Ids, stock and stock plus delta are unbounded integers.
- The iteration order of `std::unordered_map` becomes an arbitrary choice of the next key. `std::sort` is modelled by an insertion sort; only its result (ordered, a permutation) is claimed, not its algorithm.
- `emplace` keeps an existing entry, and that case is not modelled. The invariant makes every new id fresh, so in the model an insert always happens.
- The lifetime rule that both stores must outlive the sales service is not modelled. The sales service's references to the stores are `const` fields that share the console's own store objects, so the stock the console changes is the stock `CreateOrder` sees.
- `SalesService.Valid` does not say that each stored order's customer or products still exist. Stores never delete, but that fact spans objects and is not part of the invariant.
