/**
 * The product and order collections as one mutable store, with the endpoint
 * handlers as methods on it. Products are kept by id and created with
 * consecutive ids, so id order is insertion order; an order's id is its
 * position in `orders`.
 */
module Catalog {
  import opened Wrappers
  import opened Types
  import opened OrderSchema
  import opened ProductSchema
  import opened OrderController
  import opened ProductController
  import Paging

  /** The stored products in id order. */
  function InIdOrder(products: map<ProductId, Product>, n: nat): (s: seq<Product>)
    requires forall i: ProductId :: i < n ==> i in products
    ensures |s| == n && forall i :: 0 <= i < n ==> s[i] == products[i]
  {
    if n == 0 then [] else InIdOrder(products, n - 1) + [products[n - 1]]
  }

  /** Storing a product under the next id keeps the ids consecutive and each product under its own id. */
  lemma AddKeepsIds(products: map<ProductId, Product>, n: nat, p: Product, updated: map<ProductId, Product>)
    requires forall id: ProductId :: id in products <==> id < n
    requires forall id :: id in products ==> products[id].id == id
    requires p.id == n && updated == products[n := p]
    ensures forall id: ProductId :: id in updated <==> id < n + 1
    ensures forall id :: id in updated ==> updated[id].id == id
  {
  }

  class Catalog {
    var products: map<ProductId, Product>
    var nextProductId: nat
    var orders: seq<Order>

    ghost predicate Valid()
      reads this
    {
      && (forall id: ProductId :: id in products <==> id < nextProductId)
      && (forall id :: id in products ==> products[id].id == id)
      && (forall k :: 0 <= k < |orders| ==> orders[k].id == k)
    }

    constructor ()
      ensures Valid()
      ensures products == map[] && nextProductId == 0 && orders == []
    {
      products := map[];
      nextProductId := 0;
      orders := [];
    }

    /** The order stored under `id`, if any. */
    function StoredOrder(id: OrderId): Option<Order>
      reads this
    {
      if id < |orders| then Some(orders[id]) else None
    }

    /**
     * The first loop of `createOrder`: look each line up, check its stock,
     * push its snapshot and add to the running total, stopping at the first
     * failing line.
     */
    method CheckItems(lines: seq<LineRequest>) returns (r: Result<Quoted, OrderError>)
      ensures r == Quote(products, lines)
    {
      var items: seq<OrderItem> := [];
      var total := 0.0;
      var i := 0;
      while i < |lines|
        invariant 0 <= i <= |lines|
        invariant Quote(products, lines[..i]).Success?
        invariant Quote(products, lines[..i]).value.items == items
        invariant Quote(products, lines[..i]).value.total == total
      {
        var line := lines[i];
        QuoteStep(products, lines, i, Quoted(items, total));
        if line.product !in products {
          QuoteFailureSticks(products, lines, i + 1);
          return Failure(OrderError.ProductNotFound);
        }
        var p := products[line.product];
        if p.stock < line.quantity {
          QuoteFailureSticks(products, lines, i + 1);
          return Failure(InsufficientStock(p.name));
        }
        items := items + [Snapshot(p, line.quantity)];
        total := total + p.price * line.quantity as real;
        i := i + 1;
      }
      assert lines[..i] == lines;
      return Success(Quoted(items, total));
    }

    /** The second loop of `createOrder`: `$inc: { stock: -quantity }` per line, in request order. */
    method DecrementStock(lines: seq<LineRequest>)
      requires Valid()
      modifies this
      ensures Valid()
      ensures products == ApplyDecrements(old(products), lines)
      ensures orders == old(orders) && nextProductId == old(nextProductId)
    {
      var i := 0;
      while i < |lines|
        invariant 0 <= i <= |lines|
        invariant products == ApplyDecrements(old(products), lines[..i])
        invariant orders == old(orders) && nextProductId == old(nextProductId)
      {
        var line := lines[i];
        assert lines[..i + 1][..i] == lines[..i];
        if line.product in products {
          products := products[line.product := products[line.product].(stock := products[line.product].stock - line.quantity)];
        }
        i := i + 1;
      }
      assert lines[..i] == lines;
      DecrementEffect(old(products), lines);
    }

    /**
     * `createOrder`: the checking loop, the insert, then the decrementing
     * loop. A failure changes nothing; a success appends the order and lowers
     * each named product's stock by the quantity its lines request.
     */
    method PlaceOrder(
      buyer: UserId, lines: seq<LineRequest>, shippingAddress: Option<Address>,
      paymentMethod: string, now: Timestamp) returns (r: Result<Order, OrderError>)
      requires Valid()
      modifies this
      ensures Valid()
      ensures r == PlaceOrderOutcome(old(products), |old(orders)|, buyer, lines, shippingAddress, paymentMethod, now)
      ensures r.Success? ==> orders == old(orders) + [r.value] && products == ApplyDecrements(old(products), lines)
      ensures r.Failure? ==> orders == old(orders) && products == old(products)
      ensures nextProductId == old(nextProductId)
    {
      var q := CheckItems(lines);
      r := FinishOrder(q, |orders|, buyer, shippingAddress, paymentMethod, now);
      if r.Success? {
        orders := orders + [r.value];
        DecrementStock(lines);
      }
    }

    /**
     * Order placement with the stock check counting the units earlier lines
     * of the same request already claim. It keeps every stock non-negative.
     */
    method PlaceOrderReserving(
      buyer: UserId, lines: seq<LineRequest>, shippingAddress: Option<Address>,
      paymentMethod: string, now: Timestamp) returns (r: Result<Order, OrderError>)
      requires Valid()
      modifies this
      ensures Valid()
      ensures r == FinishOrder(QuoteReserving(old(products), lines), |old(orders)|, buyer, shippingAddress, paymentMethod, now)
      ensures r.Success? ==> orders == old(orders) + [r.value] && products == ApplyDecrements(old(products), lines)
      ensures r.Failure? ==> orders == old(orders) && products == old(products)
      ensures (forall id :: id in old(products) ==> old(products)[id].stock >= 0) ==>
                forall id :: id in products ==> products[id].stock >= 0
      ensures nextProductId == old(nextProductId)
    {
      var q := QuoteReserving(products, lines);
      r := FinishOrder(q, |orders|, buyer, shippingAddress, paymentMethod, now);
      if r.Success? {
        if forall id :: id in products ==> products[id].stock >= 0 {
          ReservingNeverOversells(products, lines);
        }
        orders := orders + [r.value];
        DecrementStock(lines);
      }
    }

    /**
     * `getOrderById` as written, against the stored orders; `users` are the
     * ids of the stored users the `populate` looks the owner up among.
     */
    method GetOrderById(id: OrderId, requester: Principal, users: set<UserId>) returns (a: Access)
      ensures a == OrderAccessAsWritten(StoredOrder(id), users, requester)
    {
      if id >= |orders| {
        return AccessFailure(404, "Order not found");
      }
      var order := orders[id];
      if order.user !in users {
        return Thrown;
      }
      if requester.role != Admin {
        return AccessFailure(403, "Access denied");
      }
      return Granted(order);
    }

    /** `getOrderById` as evidently intended, against the stored orders. */
    method GetOrderByIdIntended(id: OrderId, requester: Principal) returns (a: Access)
      ensures a == OrderAccess(StoredOrder(id), requester)
    {
      if id >= |orders| {
        return AccessFailure(404, "Order not found");
      }
      var order := orders[id];
      if order.user != requester.id && requester.role != Admin {
        return AccessFailure(403, "Access denied");
      }
      return Granted(order);
    }

    /**
     * `updateOrderStatus`: a missing id is 404 (None) and changes nothing;
     * otherwise the stored order gets the new status and tracking URL.
     */
    method UpdateOrderStatus(id: OrderId, status: OrderStatus, trackingUrl: Option<string>, now: Timestamp)
      returns (r: Option<Order>)
      requires Valid()
      modifies this
      ensures Valid()
      ensures id >= |old(orders)| ==> r.None? && orders == old(orders)
      ensures id < |old(orders)| ==>
                && r == Some(ApplyStatusUpdate(old(orders)[id], status, trackingUrl, now))
                && orders == old(orders)[id := r.value]
      ensures products == old(products) && nextProductId == old(nextProductId)
    {
      if id >= |orders| {
        return None;
      }
      var updated := ApplyStatusUpdate(orders[id], status, trackingUrl, now);
      assert updated.id == orders[id].id;
      orders := orders[id := updated];
      return Some(updated);
    }

    /** `getOrders`: the buyer's orders, newest first. */
    method GetOrders(buyer: UserId) returns (r: seq<Order>)
      ensures r == OwnOrders(orders, buyer)
    {
      r := OwnOrders(orders, buyer);
    }

    /** `getAllOrders` on the stored orders. */
    method GetAllOrders(page: Option<int>, limit: Option<int>) returns (r: Option<Paging.Page<Order>>)
      ensures r == AllOrdersPage(orders, page, limit)
    {
      r := AllOrdersPage(orders, page, limit);
    }

    /** `createProduct`: a refused or rejected request stores nothing; otherwise the product gets the next id. */
    method CreateProduct(requester: Principal, input: ProductInput, now: Timestamp)
      returns (r: Result<Product, ProductError>)
      requires Valid()
      modifies this
      ensures Valid()
      ensures r == CreateProductOutcome(requester, input, old(nextProductId), now)
      ensures r.Success? ==> products == old(products)[old(nextProductId) := r.value]
                             && nextProductId == old(nextProductId) + 1
      ensures r.Failure? ==> products == old(products) && nextProductId == old(nextProductId)
      ensures orders == old(orders)
    {
      if requester.role != Admin {
        return Failure(NotPermitted);
      }
      var created := NewProduct(input, nextProductId, now);
      if created.None? || !ValidProduct(created.value) {
        return Failure(ProductRejected);
      }
      AddKeepsIds(products, nextProductId, created.value, products[nextProductId := created.value]);
      products := products[nextProductId := created.value];
      nextProductId := nextProductId + 1;
      return Success(created.value);
    }

    /** `getProductById` on the stored products. */
    method GetProductById(id: ProductId) returns (r: Result<Product, ProductError>)
      ensures r == ProductLookup(products, id)
    {
      if id in products {
        return Success(products[id]);
      }
      return Failure(ProductError.ProductNotFound);
    }

    /** `updateProduct`: only the named product changes, and only on success. */
    method UpdateProduct(id: ProductId, patch: ProductPatch, now: Timestamp)
      returns (r: Result<Product, ProductError>)
      requires Valid()
      modifies this
      ensures Valid()
      ensures r == UpdateProductOutcome(old(products), id, patch, now)
      ensures r.Success? ==> products == old(products)[id := r.value]
      ensures r.Failure? ==> products == old(products)
      ensures orders == old(orders) && nextProductId == old(nextProductId)
    {
      r := UpdateProductOutcome(products, id, patch, now);
      if r.Success? {
        products := products[id := r.value];
      }
    }

    /** `getAllProducts` over the stored products in insertion order. */
    method GetAllProducts(q: ProductQuery) returns (r: Option<Paging.Page<Product>>)
      requires Valid()
      ensures r == ListProducts(InIdOrder(products, nextProductId), q)
    {
      r := ListProducts(InIdOrder(products, nextProductId), q);
    }
  }
}
