/**
 * The decisions of the order endpoints, as functions of the stored state:
 * the pricing-and-stock pass of order placement (`Quote`), the stock
 * decrement that follows the insert (`ApplyDecrements`), the owner-or-admin
 * rule of `getOrderById`, the unconditional status overwrite, and the
 * listings. The `Catalog` class runs them against its fields.
 */
module OrderController {
  import opened Wrappers
  import opened Types
  import opened OrderSchema
  import Paging

  /** One entry of the request's `items`. */
  datatype LineRequest = LineRequest(product: ProductId, quantity: int)

  datatype OrderError =
    | ProductNotFound
    | InsufficientStock(productName: string)
      /** `OrderModel.create` refused the document; the error handler, not part of this model, answers. */
    | OrderRejected
  {
    function Status(): Option<int> {
      match this
      case ProductNotFound => Some(404)
      case InsufficientStock(_) => Some(400)
      case OrderRejected => None
    }

    function Message(): string {
      match this
      case ProductNotFound => "Product not found"
      case InsufficientStock(name) => "Insufficient stock for product: " + name
      case OrderRejected => "Order validation failed"
    }
  }

  /** The line snapshots and the running total after the first loop. */
  datatype Quoted = Quoted(items: seq<OrderItem>, total: real)

  /** A requested line passes when its product exists and `product.stock < item.quantity` is false. */
  predicate LinePasses(products: map<ProductId, Product>, line: LineRequest) {
    line.product in products && products[line.product].stock >= line.quantity
  }

  function LineError(products: map<ProductId, Product>, line: LineRequest): OrderError {
    if line.product !in products then ProductNotFound else InsufficientStock(products[line.product].name)
  }

  /**
   * The first loop of `createOrder`: look each line's product up, check the
   * requested quantity against its current stock, snapshot it and add
   * price times quantity to the total. Defined on a prefix of the lines, so
   * that it can serve as the loop's invariant.
   */
  function Quote(products: map<ProductId, Product>, lines: seq<LineRequest>): Result<Quoted, OrderError>
  {
    if lines == [] then Success(Quoted([], 0.0))
    else
      match Quote(products, lines[..|lines| - 1])
      case Failure(e) => Failure(e)
      case Success(q) =>
        var line := lines[|lines| - 1];
        if !LinePasses(products, line) then Failure(LineError(products, line))
        else
          var p := products[line.product];
          Success(Quoted(q.items + [Snapshot(p, line.quantity)], q.total + p.price * line.quantity as real))
  }

  /** Sum over the requested lines of the product's current price times the requested quantity. */
  function ExpectedTotal(products: map<ProductId, Product>, lines: seq<LineRequest>): real
    requires forall k :: 0 <= k < |lines| ==> lines[k].product in products
  {
    if lines == [] then 0.0
    else
      var line := lines[|lines| - 1];
      ExpectedTotal(products, lines[..|lines| - 1]) + products[line.product].price * line.quantity as real
  }

  /** The pass succeeds exactly when every line passes. */
  lemma {:induction false} QuoteSucceedsIff(products: map<ProductId, Product>, lines: seq<LineRequest>)
    ensures Quote(products, lines).Success? <==> forall k :: 0 <= k < |lines| ==> LinePasses(products, lines[k])
  {
    if lines != [] {
      var init := lines[..|lines| - 1];
      QuoteSucceedsIff(products, init);
      assert forall k :: 0 <= k < |init| ==> init[k] == lines[k];
    }
  }

  /**
   * On success there is one snapshot per line, in request order, of the
   * product's id, name and current price with the requested quantity, and the
   * total is both the sum over the request and the sum over the snapshots.
   */
  lemma QuoteSnapshots(products: map<ProductId, Product>, lines: seq<LineRequest>)
    requires Quote(products, lines).Success?
    ensures forall k :: 0 <= k < |lines| ==> lines[k].product in products
    ensures var q := Quote(products, lines).value;
            && |q.items| == |lines|
            && (forall k :: 0 <= k < |lines| ==> q.items[k] == Snapshot(products[lines[k].product], lines[k].quantity))
            && q.total == ExpectedTotal(products, lines)
            && q.total == LineTotal(q.items)
  {
    QuoteItems(products, lines);
    QuoteTotals(products, lines);
  }

  /** The snapshots: one per line, in request order. */
  lemma {:induction false} QuoteItems(products: map<ProductId, Product>, lines: seq<LineRequest>)
    requires Quote(products, lines).Success?
    ensures forall k :: 0 <= k < |lines| ==> lines[k].product in products
    ensures var q := Quote(products, lines).value;
            && |q.items| == |lines|
            && (forall k :: 0 <= k < |lines| ==> q.items[k] == Snapshot(products[lines[k].product], lines[k].quantity))
  {
    if lines != [] {
      var init := lines[..|lines| - 1];
      var line := lines[|lines| - 1];
      assert Quote(products, init).Success?;
      QuoteItems(products, init);
      assert forall k :: 0 <= k < |init| ==> init[k] == lines[k];
      var q0 := Quote(products, init).value;
      assert Quote(products, lines).value.items == q0.items + [Snapshot(products[line.product], line.quantity)];
    }
  }

  /** The running total: the sum over the request, and equally the sum over the snapshots. */
  lemma QuoteTotals(products: map<ProductId, Product>, lines: seq<LineRequest>)
    requires Quote(products, lines).Success?
    requires forall k :: 0 <= k < |lines| ==> lines[k].product in products
    ensures var q := Quote(products, lines).value;
            q.total == ExpectedTotal(products, lines) && q.total == LineTotal(q.items)
  {
    QuoteTotalIsExpected(products, lines);
    QuoteTotalIsLineTotal(products, lines);
  }

  lemma {:induction false} QuoteTotalIsExpected(products: map<ProductId, Product>, lines: seq<LineRequest>)
    requires Quote(products, lines).Success?
    requires forall k :: 0 <= k < |lines| ==> lines[k].product in products
    ensures Quote(products, lines).value.total == ExpectedTotal(products, lines)
  {
    if lines != [] {
      var init := lines[..|lines| - 1];
      QuoteLast(products, lines);
      assert forall k :: 0 <= k < |init| ==> init[k] == lines[k];
      QuoteTotalIsExpected(products, init);
    }
  }

  lemma {:induction false} QuoteTotalIsLineTotal(products: map<ProductId, Product>, lines: seq<LineRequest>)
    requires Quote(products, lines).Success?
    ensures var q := Quote(products, lines).value; q.total == LineTotal(q.items)
  {
    if lines != [] {
      var init := lines[..|lines| - 1];
      var line := lines[|lines| - 1];
      QuoteLast(products, lines);
      QuoteTotalIsLineTotal(products, init);
      var item := Snapshot(products[line.product], line.quantity);
      var cost := products[line.product].price * line.quantity as real;
      assert item.price * item.quantity as real == cost;
      LineTotalAppend(Quote(products, init).value.items, item);
      assert Quote(products, lines).value.total == Quote(products, init).value.total + cost;
    }
  }

  /** The last line of a passed request: the pass over the others passed, and this line added its snapshot and cost. */
  lemma QuoteLast(products: map<ProductId, Product>, lines: seq<LineRequest>)
    requires lines != [] && Quote(products, lines).Success?
    ensures Quote(products, lines[..|lines| - 1]).Success?
    ensures var q := Quote(products, lines).value;
            var q0 := Quote(products, lines[..|lines| - 1]).value;
            var line := lines[|lines| - 1];
            && LinePasses(products, line)
            && q.items == q0.items + [Snapshot(products[line.product], line.quantity)]
            && q.total == q0.total + products[line.product].price * line.quantity as real
  {
  }

  lemma LineTotalAppend(items: seq<OrderItem>, item: OrderItem)
    ensures LineTotal(items + [item]) == LineTotal(items) + item.price * item.quantity as real
  {
    assert (items + [item])[..|items|] == items;
  }

  /** Both facts about the pass at once. */
  lemma QuoteSuccess(products: map<ProductId, Product>, lines: seq<LineRequest>)
    ensures Quote(products, lines).Success? <==> forall k :: 0 <= k < |lines| ==> LinePasses(products, lines[k])
    ensures Quote(products, lines).Success? ==>
              var q := Quote(products, lines).value;
              && |q.items| == |lines|
              && (forall k :: 0 <= k < |lines| ==> q.items[k] == Snapshot(products[lines[k].product], lines[k].quantity))
              && q.total == ExpectedTotal(products, lines)
              && q.total == LineTotal(q.items)
  {
    QuoteSucceedsIff(products, lines);
    if Quote(products, lines).Success? {
      QuoteSnapshots(products, lines);
    }
  }

  /** On failure, the first failing line in request order decides the error. */
  lemma {:induction false} QuoteFirstFailure(products: map<ProductId, Product>, lines: seq<LineRequest>)
    requires Quote(products, lines).Failure?
    ensures exists k :: 0 <= k < |lines|
              && (forall j :: 0 <= j < k ==> LinePasses(products, lines[j]))
              && !LinePasses(products, lines[k])
              && Quote(products, lines).error == LineError(products, lines[k])
  {
    var init := lines[..|lines| - 1];
    assert forall k :: 0 <= k < |init| ==> init[k] == lines[k];
    if Quote(products, init).Failure? {
      QuoteFirstFailure(products, init);
      var k :| 0 <= k < |init|
        && (forall j :: 0 <= j < k ==> LinePasses(products, init[j]))
        && !LinePasses(products, init[k])
        && Quote(products, init).error == LineError(products, init[k]);
      assert lines[k] == init[k];
    } else {
      QuoteSuccess(products, init);
      assert !LinePasses(products, lines[|lines| - 1]);
    }
  }

  /** One more line of the pass, given that the lines before it passed. */
  lemma QuoteStep(products: map<ProductId, Product>, lines: seq<LineRequest>, i: nat, q: Quoted)
    requires i < |lines| && Quote(products, lines[..i]) == Success(q)
    ensures !LinePasses(products, lines[i]) ==> Quote(products, lines[..i + 1]) == Failure(LineError(products, lines[i]))
    ensures LinePasses(products, lines[i]) ==>
              var p := products[lines[i].product];
              && Quote(products, lines[..i + 1]).Success?
              && Quote(products, lines[..i + 1]).value.items == q.items + [Snapshot(p, lines[i].quantity)]
              && Quote(products, lines[..i + 1]).value.total == q.total + p.price * lines[i].quantity as real
  {
    assert lines[..i + 1][..i] == lines[..i];
  }

  /** Once a prefix fails, every longer prefix fails with the same error. */
  lemma {:induction false} QuoteFailureSticks(products: map<ProductId, Product>, lines: seq<LineRequest>, i: nat)
    requires i <= |lines| && Quote(products, lines[..i]).Failure?
    ensures Quote(products, lines) == Quote(products, lines[..i])
    decreases |lines| - i
  {
    if i < |lines| {
      assert lines[..i + 1][..i] == lines[..i];
      assert Quote(products, lines[..i + 1]) == Quote(products, lines[..i]);
      QuoteFailureSticks(products, lines, i + 1);
    } else {
      assert lines[..i] == lines;
    }
  }

  /**
   * `OrderModel.create` on the quoted lines: its validators refuse a missing
   * address, an unknown payment method, an empty item list, a quantity below
   * 1, and so on.
   */
  function FinishOrder(
    quote: Result<Quoted, OrderError>, id: OrderId, buyer: UserId,
    shippingAddress: Option<Address>, paymentMethod: string, now: Timestamp): Result<Order, OrderError>
  {
    match quote
    case Failure(e) => Failure(e)
    case Success(q) =>
      var method_ := ParsePaymentMethod(paymentMethod);
      if shippingAddress.None? || method_.None? then Failure(OrderRejected)
      else
        var order := NewOrder(id, buyer, q.items, q.total, shippingAddress.value, method_.value, now);
        if ValidOrder(order) then Success(order) else Failure(OrderRejected)
  }

  /** The outcome of `createOrder` as a function of the stored products: the pass over the lines, then the insert. */
  function PlaceOrderOutcome(
    products: map<ProductId, Product>, id: OrderId, buyer: UserId, lines: seq<LineRequest>,
    shippingAddress: Option<Address>, paymentMethod: string, now: Timestamp): Result<Order, OrderError>
  {
    FinishOrder(Quote(products, lines), id, buyer, shippingAddress, paymentMethod, now)
  }

  /**
   * Every line's effect on a successful order: the order is new and pending,
   * belongs to the buyer, snapshots every line in request order, and its total
   * is the sum over the request of current price times requested quantity.
   */
  lemma PlacedOrderContents(
    products: map<ProductId, Product>, id: OrderId, buyer: UserId, lines: seq<LineRequest>,
    shippingAddress: Option<Address>, paymentMethod: string, now: Timestamp)
    requires PlaceOrderOutcome(products, id, buyer, lines, shippingAddress, paymentMethod, now).Success?
    ensures forall k :: 0 <= k < |lines| ==> lines[k].product in products
    ensures var o := PlaceOrderOutcome(products, id, buyer, lines, shippingAddress, paymentMethod, now).value;
            && o.id == id && o.user == buyer && o.status == Pending && o.paymentStatus == PaymentPending
            && o.trackingUrl == "" && o.createdAt == now
            && Some(o.shippingAddress) == shippingAddress && PaymentMethodName(o.paymentMethod) == paymentMethod
            && |o.items| == |lines|
            && (forall k :: 0 <= k < |lines| ==> o.items[k] == Snapshot(products[lines[k].product], lines[k].quantity))
            && o.totalAmount == ExpectedTotal(products, lines)
            && o.totalAmount == LineTotal(o.items)
            && ValidOrder(o)
  {
    QuoteSuccess(products, lines);
  }

  /**
   * Placement succeeds exactly when every line passes the stock check, the
   * request is non-empty, every quantity is at least 1, every product named
   * has a name and a non-negative price, the address is complete and the
   * payment method is one of the four.
   */
  lemma PlaceOrderSucceedsIff(
    products: map<ProductId, Product>, id: OrderId, buyer: UserId, lines: seq<LineRequest>,
    shippingAddress: Option<Address>, paymentMethod: string, now: Timestamp)
    ensures PlaceOrderOutcome(products, id, buyer, lines, shippingAddress, paymentMethod, now).Success? <==>
              && |lines| > 0
              && (forall k :: 0 <= k < |lines| ==> LinePasses(products, lines[k]))
              && (forall k :: 0 <= k < |lines| ==>
                    lines[k].quantity >= 1 && products[lines[k].product].name != ""
                    && products[lines[k].product].price >= 0.0)
              && shippingAddress.Some? && ValidAddress(shippingAddress.value)
              && paymentMethod in PaymentMethodNames
  {
    QuoteSuccess(products, lines);
    var q := Quote(products, lines);
    if q.Success? {
      var items := q.value.items;
      QuotedItemsValidIff(products, lines, items);
      if forall k :: 0 <= k < |items| ==> ValidOrderItem(items[k]) {
        LineTotalNonNegative(items);
      }
    }
  }

  /** The snapshots of a passed request are valid items exactly when the request's lines are. */
  lemma QuotedItemsValidIff(products: map<ProductId, Product>, lines: seq<LineRequest>, items: seq<OrderItem>)
    requires |items| == |lines|
    requires forall k :: 0 <= k < |lines| ==>
               LinePasses(products, lines[k]) && items[k] == Snapshot(products[lines[k].product], lines[k].quantity)
    ensures (forall k :: 0 <= k < |items| ==> ValidOrderItem(items[k])) <==>
            (forall k :: 0 <= k < |lines| ==>
               LinePasses(products, lines[k]) && lines[k].quantity >= 1 && products[lines[k].product].name != "" && products[lines[k].product].price >= 0.0)
  {
  }

  /** A failed stock pass wins over any schema problem: the missing product or short stock is reported. */
  lemma LineErrorsComeFirst(
    products: map<ProductId, Product>, id: OrderId, buyer: UserId, lines: seq<LineRequest>,
    shippingAddress: Option<Address>, paymentMethod: string, now: Timestamp)
    requires exists k :: 0 <= k < |lines| && !LinePasses(products, lines[k])
    ensures var r := PlaceOrderOutcome(products, id, buyer, lines, shippingAddress, paymentMethod, now);
            r.Failure? && r.error != OrderRejected && r.error.Status().Some?
  {
    QuoteSuccess(products, lines);
    QuoteFirstFailure(products, lines);
  }

  /** Total quantity the lines request of product `id`. */
  function Requested(lines: seq<LineRequest>, id: ProductId): int {
    if lines == [] then 0
    else
      var line := lines[|lines| - 1];
      Requested(lines[..|lines| - 1], id) + (if line.product == id then line.quantity else 0)
  }

  /**
   * The second loop of `createOrder`: `$inc: { stock: -quantity }` for each
   * line, in request order. An id with no product is left alone.
   */
  function ApplyDecrements(products: map<ProductId, Product>, lines: seq<LineRequest>): map<ProductId, Product>
  {
    if lines == [] then products
    else
      var before := ApplyDecrements(products, lines[..|lines| - 1]);
      var line := lines[|lines| - 1];
      if line.product in before then
        before[line.product := before[line.product].(stock := before[line.product].stock - line.quantity)]
      else before
  }

  /** Each product's stock falls by the total quantity requested of it; nothing else changes. */
  lemma {:induction false} DecrementEffect(products: map<ProductId, Product>, lines: seq<LineRequest>)
    ensures ApplyDecrements(products, lines).Keys == products.Keys
    ensures forall id :: id in products ==>
              ApplyDecrements(products, lines)[id] == products[id].(stock := products[id].stock - Requested(lines, id))
  {
    if lines != [] {
      DecrementEffect(products, lines[..|lines| - 1]);
    }
  }

  /** Lines naming pairwise distinct products. */
  predicate DistinctProducts(lines: seq<LineRequest>) {
    forall i, j :: 0 <= i < j < |lines| ==> lines[i].product != lines[j].product
  }

  /** With distinct products, the quantity requested of a product is that of its one line, if any. */
  lemma {:induction false} RequestedDistinct(lines: seq<LineRequest>, id: ProductId)
    requires DistinctProducts(lines)
    ensures (forall k :: 0 <= k < |lines| ==> lines[k].product != id) ==> Requested(lines, id) == 0
    ensures forall k :: 0 <= k < |lines| && lines[k].product == id ==> Requested(lines, id) == lines[k].quantity
  {
    if lines != [] {
      var init := lines[..|lines| - 1];
      assert forall k :: 0 <= k < |init| ==> init[k] == lines[k];
      RequestedDistinct(init, id);
    }
  }

  /**
   * When the lines name distinct products, a successful pass against
   * non-negative stock leaves every stock non-negative.
   */
  lemma DistinctLinesKeepStock(products: map<ProductId, Product>, lines: seq<LineRequest>)
    requires DistinctProducts(lines)
    requires forall id :: id in products ==> products[id].stock >= 0
    requires Quote(products, lines).Success?
    ensures forall id :: id in ApplyDecrements(products, lines) ==> ApplyDecrements(products, lines)[id].stock >= 0
  {
    QuoteSuccess(products, lines);
    DecrementEffect(products, lines);
    forall id | id in products ensures products[id].stock - Requested(lines, id) >= 0 {
      RequestedDistinct(lines, id);
    }
  }

  /**
   * Two lines for the same product are each checked against the stock read
   * before any decrement: one unit in stock, two lines of one unit, the order
   * goes through and the stock ends at -1.
   */
  lemma DuplicateLinesOversell(p: Product)
    requires p.id == 0 && p.stock == 1 && p.name != "" && p.price >= 0.0
    ensures var products := map[0 := p];
            var lines := [LineRequest(0, 1), LineRequest(0, 1)];
            && Quote(products, lines).Success?
            && 0 in ApplyDecrements(products, lines)
            && ApplyDecrements(products, lines)[0].stock == -1
  {
    var products := map[0 := p];
    var lines := [LineRequest(0, 1), LineRequest(0, 1)];
    assert lines[..1] == [LineRequest(0, 1)];
    assert lines[..1][..0] == [];
    assert LinePasses(products, lines[0]) && LinePasses(products, lines[1]);
    QuoteSucceedsIff(products, lines);
    assert Requested(lines[..1][..0], 0) == 0;
    assert Requested(lines[..1], 0) == 1;
    assert Requested(lines, 0) == 2;
    DecrementEffect(products, lines);
    assert 0 in ApplyDecrements(products, lines);
  }

  /**
   * The stock check as evidently intended: each line is checked against the
   * stock left after the earlier lines of the same request, that is, the
   * quantity requested of that product so far must not exceed its stock.
   */
  function QuoteReserving(products: map<ProductId, Product>, lines: seq<LineRequest>): Result<Quoted, OrderError>
  {
    if lines == [] then Success(Quoted([], 0.0))
    else
      match QuoteReserving(products, lines[..|lines| - 1])
      case Failure(e) => Failure(e)
      case Success(q) =>
        var line := lines[|lines| - 1];
        if line.product !in products then Failure(ProductNotFound)
        else
          var p := products[line.product];
          if p.stock < Requested(lines, line.product) then Failure(InsufficientStock(p.name))
          else Success(Quoted(q.items + [Snapshot(p, line.quantity)], q.total + p.price * line.quantity as real))
  }

  /** Under the reserving check, every prefix requests no more of a present product than it has. */
  lemma {:induction false} ReservingBoundsRequests(products: map<ProductId, Product>, lines: seq<LineRequest>)
    requires QuoteReserving(products, lines).Success?
    ensures forall id :: id in products ==>
              (Requested(lines, id) <= products[id].stock || (forall k :: 0 <= k < |lines| ==> lines[k].product != id))
    ensures forall k :: 0 <= k < |lines| ==> lines[k].product in products
  {
    if lines != [] {
      var init := lines[..|lines| - 1];
      var line := lines[|lines| - 1];
      ReservingBoundsRequests(products, init);
      assert forall k :: 0 <= k < |init| ==> init[k] == lines[k];
      forall id | id in products
        ensures Requested(lines, id) <= products[id].stock || (forall k :: 0 <= k < |lines| ==> lines[k].product != id)
      {
        if id != line.product {
          assert Requested(lines, id) == Requested(init, id);
          if !(forall k :: 0 <= k < |init| ==> init[k].product != id) {
            assert Requested(init, id) <= products[id].stock;
          }
        }
      }
    }
  }

  lemma {:induction false} RequestedAbsent(lines: seq<LineRequest>, id: ProductId)
    requires forall k :: 0 <= k < |lines| ==> lines[k].product != id
    ensures Requested(lines, id) == 0
  {
    if lines != [] {
      var init := lines[..|lines| - 1];
      assert forall k :: 0 <= k < |init| ==> init[k] == lines[k];
      RequestedAbsent(init, id);
    }
  }

  /** The corrected check never drives a stock below zero, whatever the stored stock was. */
  lemma ReservingNeverOversells(products: map<ProductId, Product>, lines: seq<LineRequest>)
    requires forall id :: id in products ==> products[id].stock >= 0
    requires QuoteReserving(products, lines).Success?
    ensures forall id :: id in ApplyDecrements(products, lines) ==> ApplyDecrements(products, lines)[id].stock >= 0
  {
    ReservingBoundsRequests(products, lines);
    DecrementEffect(products, lines);
    forall id | id in products ensures products[id].stock - Requested(lines, id) >= 0 {
      if forall k :: 0 <= k < |lines| ==> lines[k].product != id {
        RequestedAbsent(lines, id);
      }
    }
  }

  /** For requests with no repeated product the corrected check agrees with the source's. */
  lemma {:induction false} ReservingAgreesOnDistinct(products: map<ProductId, Product>, lines: seq<LineRequest>)
    requires DistinctProducts(lines)
    ensures QuoteReserving(products, lines) == Quote(products, lines)
  {
    if lines != [] {
      var init := lines[..|lines| - 1];
      var line := lines[|lines| - 1];
      assert forall k :: 0 <= k < |init| ==> init[k] == lines[k];
      assert DistinctProducts(init);
      ReservingAgreesOnDistinct(products, init);
      RequestedDistinct(lines, line.product);
    }
  }

  /** The answer of `getOrderById`; `Thrown` is an error the handler throws, which carries no status of its own. */
  datatype Access = Granted(order: Order) | AccessFailure(status: int, message: string) | Thrown

  /**
   * `getOrderById` as written. `populate('user', 'name email')` has replaced
   * the order's user id by the owner's document, or by null when no stored
   * user has that id. For a null owner `toString()` throws, whoever asks. A
   * document's `toString()` prints the whole document, which is never the
   * requester's id string, so the owner test always fails and only an admin
   * gets past the 403.
   */
  function OrderAccessAsWritten(order: Option<Order>, users: set<UserId>, requester: Principal): (a: Access)
    ensures order.None? <==> a == AccessFailure(404, "Order not found")
    ensures a.Thrown? <==> order.Some? && order.value.user !in users
    ensures a == AccessFailure(403, "Access denied") <==>
              order.Some? && order.value.user in users && requester.role != Admin
    ensures a.Granted? <==> order.Some? && order.value.user in users && requester.role == Admin
    ensures a.Granted? ==> a.order == order.value
  {
    if order.None? then AccessFailure(404, "Order not found")
    else if order.value.user !in users then Thrown
    else if requester.role != Admin then AccessFailure(403, "Access denied")
    else Granted(order.value)
  }

  /** As written, the owner of an order who is not an admin is refused it; the intended rule grants it. */
  lemma OwnerRefusedAsWritten(o: Order, users: set<UserId>, requester: Principal)
    requires o.user == requester.id && o.user in users && requester.role == Customer
    ensures OrderAccessAsWritten(Some(o), users, requester) == AccessFailure(403, "Access denied")
    ensures OrderAccess(Some(o), requester) == Granted(o)
  {
  }

  /** As written, an order whose owner was deleted makes the handler throw, for an admin too. */
  lemma DeletedOwnerThrowsAsWritten(o: Order, users: set<UserId>, admin: Principal)
    requires o.user !in users && admin.role == Admin
    ensures OrderAccessAsWritten(Some(o), users, admin) == Thrown
    ensures OrderAccess(Some(o), admin) == Granted(o)
  {
  }

  /**
   * The code as written never grants more than the intended rule: whatever
   * it grants, the intended rule grants too, and the two agree on a missing
   * order and on an admin whose order's owner still exists.
   */
  lemma AsWrittenAccessWithinIntended(order: Option<Order>, users: set<UserId>, requester: Principal)
    ensures OrderAccessAsWritten(order, users, requester).Granted? ==>
              OrderAccess(order, requester) == OrderAccessAsWritten(order, users, requester)
    ensures order.None? || (order.value.user in users && requester.role == Admin) ==>
              OrderAccess(order, requester) == OrderAccessAsWritten(order, users, requester)
  {
  }

  /**
   * `getOrderById` as evidently intended: a missing order is 404, checked
   * first; then neither owner nor admin is 403.
   */
  function OrderAccess(order: Option<Order>, requester: Principal): (a: Access)
    ensures order.None? <==> a == AccessFailure(404, "Order not found")
    ensures !a.Thrown?
    ensures a.AccessFailure? && a.status == 403 <==>
              order.Some? && order.value.user != requester.id && requester.role != Admin
    ensures a.Granted? <==> order.Some? && (order.value.user == requester.id || requester.role == Admin)
    ensures a.Granted? ==> a.order == order.value
  {
    if order.None? then AccessFailure(404, "Order not found")
    else if order.value.user != requester.id && requester.role != Admin then AccessFailure(403, "Access denied")
    else Granted(order.value)
  }

  /** `trackingUrl || ''`. */
  function TrackingOrEmpty(trackingUrl: Option<string>): string {
    if trackingUrl.None? then "" else trackingUrl.value
  }

  /** The update `updateOrderStatus` sends: status and tracking URL replaced, `updatedAt` now. */
  function ApplyStatusUpdate(o: Order, status: OrderStatus, trackingUrl: Option<string>, now: Timestamp): (r: Order)
    ensures r.status == status && r.trackingUrl == TrackingOrEmpty(trackingUrl) && r.updatedAt == now
    ensures r.(status := o.status, trackingUrl := o.trackingUrl, updatedAt := o.updatedAt) == o
  {
    o.(status := status, trackingUrl := TrackingOrEmpty(trackingUrl), updatedAt := now)
  }

  /**
   * No transition is refused and the previous status and tracking URL make no
   * difference: orders that differ only there end up identical.
   */
  lemma StatusOverwriteIgnoresHistory(
    o: Order, before1: OrderStatus, before2: OrderStatus, url1: string, url2: string,
    status: OrderStatus, trackingUrl: Option<string>, now: Timestamp)
    ensures ApplyStatusUpdate(o.(status := before1, trackingUrl := url1), status, trackingUrl, now)
         == ApplyStatusUpdate(o.(status := before2, trackingUrl := url2), status, trackingUrl, now)
  {
  }

  function CreatedAt(o: Order): int { o.createdAt }

  function Everything(o: Order): bool { true }

  lemma {:induction false} FilterEverything(orders: seq<Order>)
    ensures Paging.Filter(orders, Everything) == orders
  {
    if orders != [] {
      FilterEverything(orders[1..]);
      assert orders == [orders[0]] + orders[1..];
    }
  }

  /** `getAllOrders`: every order counts towards `total`; a page holds the newest after `skip`. */
  function AllOrdersPage(orders: seq<Order>, page: Option<int>, limit: Option<int>): (r: Option<Paging.Page<Order>>)
    ensures r.None? <==> Paging.Params(page, limit).skip < 0
    ensures r.Some? ==>
              var p := Paging.Params(page, limit);
              && r.value.page == p.page && r.value.limit == p.limit
              && r.value.total == |orders|
              && r.value.pages == Paging.PageCount(|orders|, p.limit)
              && |r.value.items| <= Paging.Abs(p.limit)
              && Paging.NewestFirst(r.value.items, CreatedAt)
              && r.value.items == Paging.Window(Paging.SortNewestFirst(orders, CreatedAt), p.skip, p.limit).value
  {
    FilterEverything(orders);
    Paging.ListPage(orders, Everything, CreatedAt, page, limit)
  }

  /** `getOrders`: the buyer's own orders, newest first. */
  function OwnOrders(orders: seq<Order>, buyer: UserId): (r: seq<Order>)
    ensures forall k :: 0 <= k < |r| ==> r[k].user == buyer && r[k] in orders
    ensures forall k :: 0 <= k < |orders| && orders[k].user == buyer ==> orders[k] in r
    ensures forall o :: multiset(r)[o] == if o.user == buyer then multiset(orders)[o] else 0
    ensures Paging.NewestFirst(r, CreatedAt)
  {
    var keep := (o: Order) => o.user == buyer;
    var r := Paging.SortNewestFirst(Paging.Filter(orders, keep), CreatedAt);
    OwnSelectionMembers(orders, buyer, keep);
    OwnSelectionCounts(orders, buyer, keep);
    r
  }

  lemma OwnSelectionMembers(orders: seq<Order>, buyer: UserId, keep: Order -> bool)
    requires forall o :: keep(o) == (o.user == buyer)
    ensures var r := Paging.SortNewestFirst(Paging.Filter(orders, keep), CreatedAt);
            && (forall k :: 0 <= k < |r| ==> r[k].user == buyer && r[k] in orders)
            && (forall k :: 0 <= k < |orders| && orders[k].user == buyer ==> orders[k] in r)
  {
    var mine := Paging.Filter(orders, keep);
    var r := Paging.SortNewestFirst(mine, CreatedAt);
    Paging.SortKeepsMembers(mine, CreatedAt);
    assert forall k :: 0 <= k < |r| ==> r[k] in r;
  }

  lemma OwnSelectionCounts(orders: seq<Order>, buyer: UserId, keep: Order -> bool)
    requires forall o :: keep(o) == (o.user == buyer)
    ensures var r := Paging.SortNewestFirst(Paging.Filter(orders, keep), CreatedAt);
            forall o :: multiset(r)[o] == if o.user == buyer then multiset(orders)[o] else 0
  {
    var r := Paging.SortNewestFirst(Paging.Filter(orders, keep), CreatedAt);
    forall o: Order ensures multiset(r)[o] == if o.user == buyer then multiset(orders)[o] else 0 {
      Paging.SortedSelectionCounts(orders, keep, CreatedAt, o);
    }
  }
}
