/**
 Clients of the three services, written against their contracts alone:
 the ids a run of creations hands out, the order-id gap, the widget
 walk-through with and without the console, and a worked order total.
 */
module Scenarios {
  import opened Models
  import opened Services
  import Console

  /** The arguments of one create_product call. */
  datatype ProductDraft = ProductDraft(name: string, sku: string, unitPrice: real, initialStock: int)

  /**
   Creating products one after another in a fresh inventory hands out the
   ids 1, 2, 3, ... in call order, and each id then finds exactly the fields
   it was created with; no other id finds anything.
   */
  method CreateInOrder(drafts: seq<ProductDraft>) returns (inventory: InventoryService, created: seq<Product>)
    ensures inventory.Valid()
    ensures |created| == |drafts|
    ensures forall i :: 0 <= i < |drafts| ==>
              created[i] == Product(i + 1, drafts[i].name, drafts[i].sku, drafts[i].unitPrice, drafts[i].initialStock)
    ensures forall i :: 0 <= i < |drafts| ==> inventory.FindProduct(i + 1) == Some(created[i])
    ensures forall id :: inventory.FindProduct(id).Some? <==> 1 <= id <= |drafts|
  {
    inventory := new InventoryService();
    created := [];
    for i := 0 to |drafts|
      invariant inventory.Valid()
      invariant inventory.nextProductId == i + 1
      invariant |created| == i
      invariant forall k :: 0 <= k < i ==>
                  created[k] == Product(k + 1, drafts[k].name, drafts[k].sku, drafts[k].unitPrice, drafts[k].initialStock)
      invariant forall k :: 0 <= k < i ==> inventory.FindProduct(k + 1) == Some(created[k])
      invariant forall id :: id in inventory.products <==> 1 <= id <= i
    {
      var draft := drafts[i];
      var product := inventory.CreateProduct(draft.name, draft.sku, draft.unitPrice, draft.initialStock);
      created := created + [product];
    }
  }

  /**
   An order for an unknown customer uses up no order id, an order rejected
   for a bad line does, and an order with no lines is accepted: after one
   rejection of each kind the first accepted order gets id 2.
   */
  method OrderIdGap() returns (unknownCustomer: Option<SalesOrder>, badLine: Option<SalesOrder>,
                               accepted: Option<SalesOrder>)
    ensures unknownCustomer.None? && badLine.None?
    ensures accepted.Some? && accepted.value.id == 2 && accepted.value.lines == []
  {
    var inventory := new InventoryService();
    var customers := new CustomerService();
    var sales := new SalesService(inventory, customers);
    unknownCustomer := sales.CreateOrder(7, []);
    var acme := customers.CreateCustomer("Acme", "Bob", "b@x.com", "555");
    var unknownProduct := [OrderLine(42, 1, 1.0)];
    assert !LineAccepted(inventory.products, unknownProduct[0]);
    badLine := sales.CreateOrder(acme.id, unknownProduct);
    accepted := sales.CreateOrder(acme.id, []);
  }

  /**
   The widget walk-through: an order for 3 of 5 widgets is accepted with
   total 30.0 and leaves the stock at 5 (the service takes no stock); once
   the caller has taken the 3 units out, 2 remain and an order for 10 is
   rejected against that stock.
   */
  method WidgetWalkThrough() returns (first: Option<SalesOrder>, firstTotal: real, stockAfterOrder: int,
                                      stockAfterAdjust: int, second: Option<SalesOrder>)
    ensures first.Some? && first.value.id == 1 && firstTotal == 30.0
    ensures stockAfterOrder == 5 && stockAfterAdjust == 2
    ensures second.None?
  {
    var inventory := new InventoryService();
    var customers := new CustomerService();
    var sales := new SalesService(inventory, customers);
    var widget := inventory.CreateProduct("Widget", "SKU1", 10.0, 5);
    var acme := customers.CreateCustomer("Acme", "Bob", "b@x.com", "555");
    first := sales.CreateOrder(acme.id, [OrderLine(widget.id, 3, 10.0)]);
    firstTotal := TotalAmount(first.value);
    stockAfterOrder := inventory.FindProduct(widget.id).value.stockOnHand;
    var taken := inventory.AdjustStock(widget.id, -3);
    stockAfterAdjust := inventory.FindProduct(widget.id).value.stockOnHand;
    var tooMany := [OrderLine(widget.id, 10, 10.0)];
    assert !LineAccepted(inventory.products, tooMany[0]);
    second := sales.CreateOrder(acme.id, tooMany);
  }

  /**
   The same widget order placed through the console: it takes the 3 units
   out of the 5 before CreateOrder checks the order, so CreateOrder sees only
   2 and rejects it, and the 3 units stay taken.
   */
  method ConsoleWidgetOrder() returns (order: Option<SalesOrder>, stockAfter: int)
    ensures order.None? && stockAfter == 2
  {
    var inventory := new InventoryService();
    var customers := new CustomerService();
    var sales := new SalesService(inventory, customers);
    var widget := inventory.CreateProduct("Widget", "SKU1", 10.0, 5);
    var acme := customers.CreateCustomer("Acme", "Bob", "b@x.com", "555");
    var requests := [Console.Request(widget.id, 3), Console.Request(0, 0)];
    ghost var after := WithStockDelta(inventory.products, widget.id, -3);
    assert requests[1..] == [Console.Request(0, 0)];
    assert Console.Collect(after, requests[1..]) == Console.Collected([], after);
    ghost var line := OrderLine(widget.id, 3, 10.0);
    assert Console.Collect(inventory.products, requests) == Console.Collected([line], after);
    assert !LineAccepted(after, [line][0]);
    assert acme.id in customers.customers;
    order := Console.HandleCreateOrder(inventory, customers, sales, acme.id, requests);
    stockAfter := inventory.FindProduct(widget.id).value.stockOnHand;
  }

  /** A worked total: 10.0 x 2 plus 5.5 x 3 is 36.5. */
  lemma TwoLineTotal()
    ensures LinesTotal([OrderLine(1, 2, 10.0), OrderLine(2, 3, 5.5)]) == 36.5
  {
  }
}
