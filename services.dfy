/**
 The three in-memory stores of the order-entry tool: the inventory (products
 and their stock), the customer register, and the sales service, which holds
 read-only references to the other two, validates new orders against them
 and keeps the accepted orders in creation order.
 */
module Services {
  import opened Models
  import Listing

  /** One row of the product listing: the product and the stock it can sell. */
  datatype ProductWithStock = ProductWithStock(product: Product, availableStock: int)

  /** The id a product row is sorted by. */
  function ProductKey(item: ProductWithStock): int
  {
    item.product.id
  }

  /** The listing row of a stored product: available stock mirrors stock on hand. */
  function WithStock(product: Product): ProductWithStock
  {
    ProductWithStock(product, product.stockOnHand)
  }

  /** The id a customer is sorted by. */
  function CustomerKey(customer: Customer): int
  {
    customer.id
  }

  /** A customer is listed as it is stored. */
  function AsStored(customer: Customer): Customer
  {
    customer
  }

  /** No stored product has negative stock. */
  ghost predicate StockNonNegative(products: map<int, Product>)
  {
    forall id :: id in products ==> products[id].stockOnHand >= 0
  }

  /** The store after the stock of product `id` has moved by `delta`; nothing else differs. */
  function WithStockDelta(products: map<int, Product>, id: int, delta: int): map<int, Product>
    requires id in products
  {
    products[id := products[id].(stockOnHand := products[id].stockOnHand + delta)]
  }

  /**
   The checks create_order makes of one line: the product is known, the
   quantity is positive, the quoted price is not negative, and the product's
   current stock covers the quantity.
   */
  predicate LineAccepted(products: map<int, Product>, line: OrderLine)
  {
    && line.productId in products
    && line.quantity > 0
    && line.unitPrice >= 0.0
    && products[line.productId].stockOnHand >= line.quantity
  }

  /** An order is accepted only as a whole: the customer is known and every line passes. */
  predicate OrderAccepted(customers: map<int, Customer>, products: map<int, Product>, customerId: int, lines: seq<OrderLine>)
  {
    && customerId in customers
    && forall i :: 0 <= i < |lines| ==> LineAccepted(products, lines[i])
  }

  /** What every stored order's lines satisfy, whatever has happened to stock since. */
  ghost predicate LinesWellFormed(lines: seq<OrderLine>)
  {
    forall i :: 0 <= i < |lines| ==> lines[i].quantity > 0 && lines[i].unitPrice >= 0.0
  }

  class InventoryService {
    var nextProductId: int
    var products: map<int, Product>

    /** Every product is stored under its own id, and ids below the counter are the only ones used. */
    ghost predicate Valid()
      reads this
    {
      && nextProductId >= 1
      && forall id :: id in products ==> products[id].id == id && 1 <= id < nextProductId
    }

    constructor ()
      ensures Valid()
      ensures nextProductId == 1 && products == map[]
    {
      nextProductId := 1;
      products := map[];
    }

    /**
     Stores a new product under the next id. Nothing about the fields is
     checked, so a negative initial stock is stored as given.
     */
    method CreateProduct(name: string, sku: string, unitPrice: real, initialStock: int) returns (product: Product)
      requires Valid()
      modifies this
      ensures Valid()
      ensures product == Product(old(nextProductId), name, sku, unitPrice, initialStock)
      ensures product.id !in old(products)
      ensures nextProductId == old(nextProductId) + 1
      ensures products == old(products)[product.id := product]
      ensures FindProduct(product.id) == Some(product)
      ensures forall id :: id != product.id ==> FindProduct(id) == old(FindProduct(id))
      ensures StockNonNegative(products) <==> StockNonNegative(old(products)) && initialStock >= 0
    {
      product := Product(nextProductId, name, sku, unitPrice, initialStock);
      nextProductId := nextProductId + 1;
      ghost var before := products;
      // The id is fresh (Valid), so emplace always inserts.
      products := products[product.id := product];
      assert forall id :: id in before ==> products[id] == before[id];
      assert products[product.id].stockOnHand == initialStock;
    }

    /** Looks a product up by id; None when no product has that id. */
    function FindProduct(id: int): (found: Option<Product>)
      reads this
      ensures found.Some? <==> id in products
      ensures found.Some? ==> found.value == products[id]
      ensures found.Some? && Valid() ==> found.value.id == id
    {
      if id in products then Some(products[id]) else None
    }

    /**
     A snapshot of every product with its available stock, sorted strictly
     ascending by id; every stored product appears exactly once.
     */
    method ListProducts() returns (items: seq<ProductWithStock>)
      requires Valid()
      ensures Listing.IsListing(items, products, ProductKey, WithStock)
      ensures |items| == |products|
      ensures forall i :: 0 <= i < |items| ==> items[i].availableStock == items[i].product.stockOnHand
    {
      items := Listing.SortedSnapshot(products, ProductKey, WithStock);
      Listing.ListingSize(items, products, ProductKey, WithStock);
    }

    /**
     Moves the stock of product `id` by `delta`. Fails, changing nothing,
     when the product is unknown or the stock would drop below zero.
     */
    method AdjustStock(id: int, delta: int) returns (ok: bool)
      requires Valid()
      modifies this
      ensures Valid()
      ensures ok <==> id in old(products) && old(products)[id].stockOnHand + delta >= 0
      ensures ok ==> products == WithStockDelta(old(products), id, delta)
      ensures !ok ==> products == old(products)
      ensures nextProductId == old(nextProductId)
      ensures StockNonNegative(old(products)) ==> StockNonNegative(products)
    {
      if id !in products {
        return false;
      }
      var product := products[id];
      if product.stockOnHand + delta < 0 {
        return false;
      }
      products := products[id := product.(stockOnHand := product.stockOnHand + delta)];
      return true;
    }
  }

  class CustomerService {
    var nextCustomerId: int
    var customers: map<int, Customer>

    /** Every customer is stored under its own id, and ids below the counter are the only ones used. */
    ghost predicate Valid()
      reads this
    {
      && nextCustomerId >= 1
      && forall id :: id in customers ==> customers[id].id == id && 1 <= id < nextCustomerId
    }

    constructor ()
      ensures Valid()
      ensures nextCustomerId == 1 && customers == map[]
    {
      nextCustomerId := 1;
      customers := map[];
    }

    /** Stores a new customer under the next id; no field is checked. */
    method CreateCustomer(companyName: string, contactName: string, email: string, phone: string) returns (customer: Customer)
      requires Valid()
      modifies this
      ensures Valid()
      ensures customer == Customer(old(nextCustomerId), companyName, contactName, email, phone)
      ensures customer.id !in old(customers)
      ensures nextCustomerId == old(nextCustomerId) + 1
      ensures customers == old(customers)[customer.id := customer]
      ensures FindCustomer(customer.id) == Some(customer)
      ensures forall id :: id != customer.id ==> FindCustomer(id) == old(FindCustomer(id))
    {
      customer := Customer(nextCustomerId, companyName, contactName, email, phone);
      nextCustomerId := nextCustomerId + 1;
      // The id is fresh (Valid), so emplace always inserts.
      customers := customers[customer.id := customer];
    }

    /** Looks a customer up by id; None when no customer has that id. */
    function FindCustomer(id: int): (found: Option<Customer>)
      reads this
      ensures found.Some? <==> id in customers
      ensures found.Some? ==> found.value == customers[id]
      ensures found.Some? && Valid() ==> found.value.id == id
    {
      if id in customers then Some(customers[id]) else None
    }

    /** A snapshot of every customer, sorted strictly ascending by id, each exactly once. */
    method ListCustomers() returns (items: seq<Customer>)
      requires Valid()
      ensures Listing.IsListing(items, customers, CustomerKey, AsStored)
      ensures |items| == |customers|
    {
      items := Listing.SortedSnapshot(customers, CustomerKey, AsStored);
      Listing.ListingSize(items, customers, CustomerKey, AsStored);
    }
  }

  class SalesService {
    /** The stores an order is checked against; this service never changes them. */
    const inventory: InventoryService
    const customers: CustomerService
    var nextOrderId: int
    var orders: seq<SalesOrder>

    /**
     Orders are kept in creation order with strictly increasing ids, all below
     the counter, and every stored line passed the quantity and price checks.
     */
    ghost predicate Valid()
      reads this
    {
      && nextOrderId >= 1
      && (forall i :: 0 <= i < |orders| ==> 1 <= orders[i].id < nextOrderId)
      && (forall i, j :: 0 <= i < j < |orders| ==> orders[i].id < orders[j].id)
      && (forall i :: 0 <= i < |orders| ==> LinesWellFormed(orders[i].lines))
    }

    constructor (inventory: InventoryService, customers: CustomerService)
      ensures Valid()
      ensures this.inventory == inventory && this.customers == customers
      ensures nextOrderId == 1 && orders == []
    {
      this.inventory := inventory;
      this.customers := customers;
      nextOrderId := 1;
      orders := [];
    }

    /**
     Creates an order when the customer is known and every line passes the
     checks against the current stock; otherwise returns None and stores
     nothing. The order id is drawn as soon as the customer is found, so an
     order rejected for one of its lines still uses up an id. The lines are
     stored verbatim, with the caller's prices, and no stock is touched.
     */
    method CreateOrder(customerId: int, lines: seq<OrderLine>) returns (order: Option<SalesOrder>)
      requires Valid()
      modifies this
      ensures Valid()
      ensures order.Some? <==> OrderAccepted(customers.customers, inventory.products, customerId, lines)
      ensures order.Some? ==> order.value == SalesOrder(old(nextOrderId), customerId, lines)
      ensures order.Some? ==> orders == old(orders) + [order.value]
      ensures order.None? ==> orders == old(orders)
      ensures nextOrderId == if customerId in customers.customers then old(nextOrderId) + 1 else old(nextOrderId)
      ensures unchanged(inventory) && unchanged(customers)
    {
      if customers.FindCustomer(customerId).None? {
        return None;
      }
      var id := nextOrderId;
      nextOrderId := nextOrderId + 1;
      var accepted: seq<OrderLine> := [];
      for i := 0 to |lines|
        invariant accepted == lines[..i]
        invariant forall k :: 0 <= k < i ==> LineAccepted(inventory.products, lines[k])
        invariant nextOrderId == id + 1 && orders == old(orders)
      {
        var line := lines[i];
        var product := inventory.FindProduct(line.productId);
        if product.None? || line.quantity <= 0 || line.unitPrice < 0.0 {
          return None;
        }
        if product.value.stockOnHand < line.quantity {
          return None;
        }
        accepted := accepted + [line];
      }
      assert accepted == lines;
      var created := SalesOrder(id, customerId, accepted);
      orders := orders + [created];
      return Some(created);
    }

    /** All orders in creation order, which is also strictly ascending id order. */
    function ListOrders(): (all: seq<SalesOrder>)
      reads this
      requires Valid()
      ensures all == orders
      ensures forall i, j :: 0 <= i < j < |all| ==> all[i].id < all[j].id
      ensures forall i :: 0 <= i < |all| ==> 1 <= all[i].id < nextOrderId
    {
      orders
    }
  }
}
