/**
 * The order document schema: the address and line-item sub-schemas, the
 * at-least-one-item validator, the numeric lower bounds and the defaults
 * (status and payment status pending, empty tracking URL, dates now).
 */
module OrderSchema {
  import opened Types

  /** Mongoose's `required` on a String rejects a missing value and the empty string. */
  predicate RequiredString(s: string) { s != "" }

  /** Every address field is required. */
  predicate ValidAddress(a: Address) {
    && RequiredString(a.street) && RequiredString(a.city) && RequiredString(a.state)
    && RequiredString(a.zipCode) && RequiredString(a.country)
  }

  /** An order line needs a name, a quantity of at least 1 and a non-negative price. */
  predicate ValidOrderItem(item: OrderItem) {
    RequiredString(item.name) && item.quantity >= 1 && item.price >= 0.0
  }

  predicate ValidOrder(o: Order) {
    && |o.items| > 0
    && (forall k :: 0 <= k < |o.items| ==> ValidOrderItem(o.items[k]))
    && o.totalAmount >= 0.0
    && ValidAddress(o.shippingAddress)
  }

  /** Sum of unit price times quantity over the lines, in line order. */
  function LineTotal(items: seq<OrderItem>): real
  {
    if items == [] then 0.0
    else LineTotal(items[..|items| - 1]) + items[|items| - 1].price * items[|items| - 1].quantity as real
  }

  /** Lines with non-negative prices and quantities add up to a non-negative total. */
  lemma {:induction false} LineTotalNonNegative(items: seq<OrderItem>)
    requires forall k :: 0 <= k < |items| ==> items[k].price >= 0.0 && items[k].quantity >= 0
    ensures LineTotal(items) >= 0.0
  {
    if items != [] {
      LineTotalNonNegative(items[..|items| - 1]);
      var last := items[|items| - 1];
      assert last.price * last.quantity as real >= 0.0;
    }
  }

  /** `OrderModel.create(...)` with the schema defaults filled in. */
  function NewOrder(
    id: OrderId, user: UserId, items: seq<OrderItem>, totalAmount: real,
    shippingAddress: Address, paymentMethod: PaymentMethod, now: Timestamp): (o: Order)
    ensures o.id == id && o.user == user && o.items == items && o.totalAmount == totalAmount
    ensures o.shippingAddress == shippingAddress && o.paymentMethod == paymentMethod
    ensures o.status == Pending && o.paymentStatus == PaymentPending && o.trackingUrl == ""
    ensures o.orderDate == now && o.createdAt == now && o.updatedAt == now
  {
    Order(id, user, items, totalAmount, Pending, shippingAddress, paymentMethod, PaymentPending, now, "", now, now)
  }

  /**
   * A non-empty list of valid lines, totalled by `LineTotal`, with a complete
   * address, makes an order the schema accepts.
   */
  lemma TotalledLinesMakeValidOrder(
    id: OrderId, user: UserId, items: seq<OrderItem>, shippingAddress: Address,
    paymentMethod: PaymentMethod, now: Timestamp)
    requires |items| > 0 && forall k :: 0 <= k < |items| ==> ValidOrderItem(items[k])
    requires ValidAddress(shippingAddress)
    ensures ValidOrder(NewOrder(id, user, items, LineTotal(items), shippingAddress, paymentMethod, now))
  {
    LineTotalNonNegative(items);
  }
}
