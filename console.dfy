/**
 How the console front end composes the services when it builds an order.
 After the customer is found, it reads product ids and quantities until the
 product id 0 (an exhausted input also reads as 0). It skips an unknown
 product, a quantity that is not positive and a quantity the stock it sees
 does not cover. Any other entry becomes a line with the product's current
 catalogue price, and the quantity is taken out of stock at once with
 AdjustStock. When the order ends with at least one line, the lines go to
 CreateOrder, which checks every line again against the stock the console
 has already reduced. Only that sequence of service calls is modelled here,
 without the prompts and messages around it.
 */
module Console {
  import opened Models
  import opened Services

  /** One entry at the order prompt: a product id and the quantity typed for it. */
  datatype Request = Request(productId: int, quantity: int)

  /** The lines the console has gathered and the stock left after its own decrements. */
  datatype Collected = Collected(lines: seq<OrderLine>, products: map<int, Product>)

  /**
   The console's gathering loop as a function of the entries: it stops at the
   first product id 0 or at the end of the input, skips entries that fail its
   checks, and takes the quantity of every line it keeps out of stock.
   */
  function Collect(products: map<int, Product>, requests: seq<Request>): Collected
    decreases |requests|
  {
    if |requests| == 0 || requests[0].productId == 0 then
      Collected([], products)
    else
      var request := requests[0];
      if request.productId !in products || request.quantity <= 0
         || products[request.productId].stockOnHand < request.quantity then
        Collect(products, requests[1..])
      else
        var line := OrderLine(request.productId, request.quantity, products[request.productId].unitPrice);
        var rest := Collect(WithStockDelta(products, request.productId, -request.quantity), requests[1..]);
        Collected([line] + rest.lines, rest.products)
  }

  /** One step of the gathering loop, read off the entry at position `i`. */
  lemma CollectStep(products: map<int, Product>, requests: seq<Request>, i: int)
    requires 0 <= i <= |requests|
    ensures i == |requests| || requests[i].productId == 0 ==> Collect(products, requests[i..]) == Collected([], products)
    ensures i < |requests| && requests[i].productId != 0 ==>
              var request := requests[i];
              Collect(products, requests[i..])
              == if request.productId !in products || request.quantity <= 0
                    || products[request.productId].stockOnHand < request.quantity then
                   Collect(products, requests[i + 1..])
                 else
                   var rest := Collect(WithStockDelta(products, request.productId, -request.quantity), requests[i + 1..]);
                   Collected([OrderLine(request.productId, request.quantity, products[request.productId].unitPrice)] + rest.lines,
                             rest.products)
  {
    if i < |requests| {
      assert requests[i..][1..] == requests[i + 1..];
    }
  }

  /** The total quantity of product `id` over the lines. */
  function Taken(lines: seq<OrderLine>, id: int): int
  {
    if |lines| == 0 then 0
    else (if lines[0].productId == id then lines[0].quantity else 0) + Taken(lines[1..], id)
  }

  /**
   What the gathering loop leaves behind: the same products, each with its
   stock lowered by exactly the quantity gathered for it and nothing else
   changed; every line names a known product with a positive quantity and
   that product's catalogue price; and stock that was not negative stays so.
   */
  lemma {:induction false} CollectEffect(products: map<int, Product>, requests: seq<Request>)
    ensures var c := Collect(products, requests);
            && c.products.Keys == products.Keys
            && (forall id :: id in products ==>
                  c.products[id] == products[id].(stockOnHand := products[id].stockOnHand - Taken(c.lines, id)))
            && (forall i :: 0 <= i < |c.lines| ==>
                  && c.lines[i].productId in products
                  && c.lines[i].quantity > 0
                  && c.lines[i].unitPrice == products[c.lines[i].productId].unitPrice)
            && (StockNonNegative(products) ==> StockNonNegative(c.products))
    decreases |requests|
  {
    if |requests| == 0 || requests[0].productId == 0 {
    } else {
      var request := requests[0];
      if request.productId !in products || request.quantity <= 0
         || products[request.productId].stockOnHand < request.quantity {
        CollectEffect(products, requests[1..]);
      } else {
        var line := OrderLine(request.productId, request.quantity, products[request.productId].unitPrice);
        var after := WithStockDelta(products, request.productId, -request.quantity);
        CollectEffect(after, requests[1..]);
        var rest := Collect(after, requests[1..]);
        var lines := [line] + rest.lines;
        assert Collect(products, requests) == Collected(lines, rest.products);
        assert lines[1..] == rest.lines;
        forall id | id in products
          ensures rest.products[id] == products[id].(stockOnHand := products[id].stockOnHand - Taken(lines, id))
        {
          assert Taken(lines, id) == (if request.productId == id then request.quantity else 0) + Taken(rest.lines, id);
        }
        forall i | 0 <= i < |lines|
          ensures && lines[i].productId in products
                  && lines[i].quantity > 0
                  && lines[i].unitPrice == products[lines[i].productId].unitPrice
        {
          if i > 0 {
            assert lines[i] == rest.lines[i - 1];
          }
        }
      }
    }
  }

  /** Lines with positive quantities take a non-negative amount of every product. */
  lemma {:induction false} TakenNonNegative(lines: seq<OrderLine>, id: int)
    requires forall k :: 0 <= k < |lines| ==> lines[k].quantity > 0
    ensures Taken(lines, id) >= 0
    decreases |lines|
  {
    if |lines| > 0 {
      TakenNonNegative(lines[1..], id);
    }
  }

  /** Every line's quantity counts towards what is taken of its product. */
  lemma {:induction false} TakenCoversLine(lines: seq<OrderLine>, i: int)
    requires 0 <= i < |lines|
    requires forall k :: 0 <= k < |lines| ==> lines[k].quantity > 0
    ensures Taken(lines, lines[i].productId) >= lines[i].quantity
    decreases |lines|
  {
    if i == 0 {
      TakenNonNegative(lines[1..], lines[0].productId);
    } else {
      assert lines[1..][i - 1] == lines[i];
      TakenCoversLine(lines[1..], i - 1);
    }
  }

  /**
   A single line the console accepted (quantity `quantity`, stock on hand
   `S` at least `quantity`) leaves `S - quantity` in stock, and CreateOrder
   then accepts the order exactly when `S - quantity` still covers the
   quantity and the copied catalogue price is not negative. So the order is
   rejected whenever `S - quantity < quantity`, and the stock the console
   took is not given back: CreateOrder changes no stock.
   */
  lemma DecrementThenRecheck(customers: map<int, Customer>, products: map<int, Product>, customerId: int,
                             productId: int, quantity: int)
    requires customerId in customers
    requires productId in products
    requires quantity > 0 && products[productId].stockOnHand >= quantity
    ensures var line := OrderLine(productId, quantity, products[productId].unitPrice);
            var after := WithStockDelta(products, productId, -quantity);
            && after[productId].stockOnHand == products[productId].stockOnHand - quantity
            && (OrderAccepted(customers, after, customerId, [line])
                <==> products[productId].stockOnHand - quantity >= quantity && products[productId].unitPrice >= 0.0)
  {
    var line := OrderLine(productId, quantity, products[productId].unitPrice);
    var after := WithStockDelta(products, productId, -quantity);
    assert after[productId].stockOnHand == products[productId].stockOnHand - quantity;
    assert OrderAccepted(customers, after, customerId, [line]) <==> LineAccepted(after, [line][0]);
  }

  /**
   CreateOrder's verdict on what the console gathered, in terms of the stock
   before the order began: the order is accepted exactly when the customer
   is known and, for every line, the product's original stock minus all that
   the console took of it still covers the line, and the price is not negative.
   */
  lemma CollectedOrderAccepted(customers: map<int, Customer>, products: map<int, Product>, customerId: int,
                               requests: seq<Request>)
    ensures var c := Collect(products, requests);
            OrderAccepted(customers, c.products, customerId, c.lines)
            <==> && customerId in customers
                 && forall i :: 0 <= i < |c.lines| ==>
                      && c.lines[i].productId in products
                      && products[c.lines[i].productId].stockOnHand - Taken(c.lines, c.lines[i].productId) >= c.lines[i].quantity
                      && c.lines[i].unitPrice >= 0.0
  {
    CollectEffect(products, requests);
  }

  /**
   Because the console takes stock before CreateOrder checks it again, an
   order it places is accepted only when, for every line, the product's
   original stock is at least twice the line's quantity.
   */
  lemma AcceptedNeedsTwiceTheStock(customers: map<int, Customer>, products: map<int, Product>, customerId: int,
                                   requests: seq<Request>)
    ensures var c := Collect(products, requests);
            OrderAccepted(customers, c.products, customerId, c.lines) ==>
              forall i :: 0 <= i < |c.lines| ==>
                c.lines[i].productId in products && products[c.lines[i].productId].stockOnHand >= 2 * c.lines[i].quantity
  {
    var c := Collect(products, requests);
    CollectEffect(products, requests);
    CollectedOrderAccepted(customers, products, customerId, requests);
    if OrderAccepted(customers, c.products, customerId, c.lines) {
      forall i | 0 <= i < |c.lines|
        ensures products[c.lines[i].productId].stockOnHand >= 2 * c.lines[i].quantity
      {
        TakenCoversLine(c.lines, i);
      }
    }
  }

  /**
   The gathering loop on the live inventory: reads entries until product id 0
   or the end of the input, keeps the entries that pass the console's checks
   and takes each kept quantity out of stock with AdjustStock. The lines and
   the new stock are exactly what Collect says.
   */
  method GatherLines(inventory: InventoryService, requests: seq<Request>) returns (lines: seq<OrderLine>)
    requires inventory.Valid()
    modifies inventory
    ensures inventory.Valid() && inventory.nextProductId == old(inventory.nextProductId)
    ensures Collect(old(inventory.products), requests) == Collected(lines, inventory.products)
  {
    ghost var start := inventory.products;
    lines := [];
    var i := 0;
    while i < |requests| && requests[i].productId != 0
      invariant 0 <= i <= |requests|
      invariant inventory.Valid() && inventory.nextProductId == old(inventory.nextProductId)
      invariant Collect(start, requests)
                == Collected(lines + Collect(inventory.products, requests[i..]).lines,
                             Collect(inventory.products, requests[i..]).products)
      decreases |requests| - i
    {
      var request := requests[i];
      CollectStep(inventory.products, requests, i);
      var product := inventory.FindProduct(request.productId);
      if product.Some? && request.quantity > 0 && product.value.stockOnHand >= request.quantity {
        var line := OrderLine(request.productId, request.quantity, product.value.unitPrice);
        ghost var rest := Collect(WithStockDelta(inventory.products, request.productId, -request.quantity), requests[i + 1..]);
        lines := lines + [line];
        // The stock covers the quantity, so this adjustment always succeeds.
        var ok := inventory.AdjustStock(request.productId, -request.quantity);
        assert lines + rest.lines == (lines[..|lines| - 1]) + ([line] + rest.lines);
      }
      i := i + 1;
    }
    CollectStep(inventory.products, requests, i);
  }

  /**
   The order handler on live services. An unknown customer ends it before
   anything changes. Otherwise the gathering loop runs on the inventory, and
   when it kept at least one line the lines go to CreateOrder; the stock the
   loop took stays taken whatever CreateOrder decides.
   */
  method HandleCreateOrder(inventory: InventoryService, customers: CustomerService, sales: SalesService,
                           customerId: int, requests: seq<Request>)
    returns (order: Option<SalesOrder>)
    requires inventory.Valid() && customers.Valid() && sales.Valid()
    requires sales.inventory == inventory && sales.customers == customers
    modifies inventory, sales
    ensures inventory.Valid() && sales.Valid()
    ensures inventory.nextProductId == old(inventory.nextProductId)
    ensures customerId !in customers.customers ==>
              && order.None?
              && inventory.products == old(inventory.products)
              && sales.orders == old(sales.orders) && sales.nextOrderId == old(sales.nextOrderId)
    ensures customerId in customers.customers ==>
              var c := Collect(old(inventory.products), requests);
              && inventory.products == c.products
              && (c.lines == [] ==> order.None? && sales.orders == old(sales.orders) && sales.nextOrderId == old(sales.nextOrderId))
              && (c.lines != [] ==> sales.nextOrderId == old(sales.nextOrderId) + 1)
              && (c.lines != [] ==> (order.Some? <==> OrderAccepted(customers.customers, c.products, customerId, c.lines)))
              && (order.Some? ==> order.value == SalesOrder(old(sales.nextOrderId), customerId, c.lines))
              && (order.Some? ==> sales.orders == old(sales.orders) + [order.value])
              && (order.None? ==> sales.orders == old(sales.orders))
  {
    if customers.FindCustomer(customerId).None? {
      return None;
    }
    var lines := GatherLines(inventory, requests);
    if lines == [] {
      return None;
    }
    order := sales.CreateOrder(customerId, lines);
  }
}
